/** The worker of the gateway that owns the instrument (gateway/server.py), one batch after the other. */
module PhysicalOwner {

  import opened Wrappers
  import opened Errors
  import opened Commands
  import opened Devices
  import opened VirtualTime
  import opened Timing

  datatype Progress = Queued | Executing

  /** A work item only moves from queued to executing. */
  predicate Progressing(sights: seq<Progress>) {
    forall i, j :: 0 <= i < j < |sights| && sights[i].Executing? ==> sights[j].Executing?
  }

  /** A batch in the queue. completions counts how often it has been reported done. */
  class Work {
    const batch: seq<Command>
    const interval: nat
    var result: Option<seq<Option<string>>>
    var error: Option<Error>
    var state: Progress
    var done: bool
    ghost var completions: nat

    constructor (batch: seq<Command>, interval: nat)
      ensures this.batch == batch && this.interval == interval && Untouched()
    {
      this.batch, this.interval := batch, interval;
      result, error, state, done, completions := None, None, Queued, false, 0;
    }

    ghost predicate Untouched()
      reads this
    {
      result.None? && error.None? && state == Queued && !done && completions == 0
    }

    /** Store the result or the error, and report done. */
    method Complete(outcome: Outcome)
      requires result.None? && error.None? && completions == 0
      modifies this`result, this`error, this`done, this`completions
      ensures CompletedWith(outcome)
    {
      match outcome {
        case Values(values) => result := Some(values);
        case Raised(e) => error := Some(e);
      }
      done, completions := true, completions + 1;
    }

    /** Done once, with exactly one of a result and an error, as the outcome says. */
    ghost predicate CompletedWith(outcome: Outcome)
      reads this
    {
      && done && completions == 1
      && result == (if outcome.Values? then Some(outcome.values) else None)
      && error == (if outcome.Raised? then Some(outcome.error) else None)
    }
  }

  /** The outcomes of batches run one after the other, each in full or up to its failing command. */
  function ServeAll<S>(dev: Device<S>, s: S, batches: seq<seq<Command>>): (r: (S, seq<Outcome>))
    ensures |r.1| == |batches|
  {
    if batches == [] then (s, [])
    else
      var (before, outcomes) := ServeAll(dev, s, batches[..|batches| - 1]);
      var batch := batches[|batches| - 1];
      var run := RunCommands(dev, before, batch);
      (run.world, outcomes + [OutcomeOf(run, batch)])
  }

  /** The lines they put on the wire. */
  function LinesSent<S>(dev: Device<S>, s: S, batches: seq<seq<Command>>): seq<string> {
    if batches == [] then []
    else
      var prefix, batch := batches[..|batches| - 1], batches[|batches| - 1];
      var run := RunCommands(dev, ServeAll(dev, s, prefix).0, batch);
      LinesSent(dev, s, prefix) + LinesOf(SentOf(run, batch))
  }

  /** The commands of a batch that its run puts on the wire. */
  function SentOf<S>(run: Run<S>, batch: seq<Command>): seq<Command> {
    if Attempted(run) <= |batch| then batch[..Attempted(run)] else batch
  }

  /** The instrument and the lines on the wire so far. */
  datatype Scene<S> = Scene(world: S, lines: seq<string>)

  /** A batch is run, or turned away by a closed executor. */
  function AfterBatch<S>(dev: Device<S>, closed: bool, scene: Scene<S>, batch: seq<Command>): (Scene<S>, Outcome) {
    if closed then (scene, Raised(EXECUTOR_CLOSED))
    else
      var run := RunCommands(dev, scene.world, batch);
      (Scene(run.world, scene.lines + LinesOf(SentOf(run, batch))), OutcomeOf(run, batch))
  }

  /** The instrument, the lines and the outcomes after some batches. */
  function AfterAll<S>(dev: Device<S>, start: Scene<S>, batches: seq<seq<Command>>): (Scene<S>, seq<Outcome>) {
    var (world, outcomes) := ServeAll(dev, start.world, batches);
    (Scene(world, start.lines + LinesSent(dev, start.world, batches)), outcomes)
  }

  lemma AfterOneMore<S>(dev: Device<S>, start: Scene<S>, batches: seq<seq<Command>>, batch: seq<Command>)
    ensures
      var (scene, outcomes) := AfterAll(dev, start, batches);
      var (after, outcome) := AfterBatch(dev, false, scene, batch);
      AfterAll(dev, start, batches + [batch]) == (after, outcomes + [outcome])
  {
    assert (batches + [batch])[..|batches|] == batches;
    var lines := LinesSent(dev, start.world, batches);
    var run := RunCommands(dev, ServeAll(dev, start.world, batches).0, batch);
    assert start.lines + (lines + LinesOf(SentOf(run, batch))) == (start.lines + lines) + LinesOf(SentOf(run, batch));
  }

  lemma LinesOfLast(trace: seq<Event>)
    requires trace != []
    ensures
      var last := trace[|trace| - 1];
      Lines(trace) == Lines(trace[..|trace| - 1]) + (if last.Sent? then [last.line] else [])
  {
  }

  lemma {:induction false} LinesOfRest(trace: seq<Event>, longer: seq<Event>)
    requires trace <= longer
    ensures Lines(longer) == Lines(trace) + Lines(longer[|trace|..])
  {
    if trace == longer {
      assert longer[|trace|..] == [];
    } else {
      var n := |longer| - 1;
      LinesOfRest(trace, longer[..n]);
      LinesOfLast(longer);
      LinesOfLast(longer[|trace|..]);
      assert longer[|trace|..][..n - |trace|] == longer[..n][|trace|..];
    }
  }

  /** Every write attempt so far keeps the next batch, of any interval, at the required distance. */
  ghost predicate Charged(trace: seq<Event>, completedAt: int, interval: nat) {
    forall i :: 0 <= i < |trace| && trace[i].Sent? ==>
      trace[i].end <= completedAt && trace[i].end + trace[i].gap <= completedAt + interval
  }

  /** A batch that starts late enough after the previous one keeps the whole trace spaced. */
  lemma BatchAppended(before: seq<Event>, after: seq<Event>, completedAt: int, previous: nat, interval: nat, begin: int)
    requires before <= after && BatchSpaced(after, |before|, interval, begin)
    requires WritesSpaced(before) && ReadsSpaced(before)
    requires begin >= completedAt + Later(previous, interval) || before == []
    requires Charged(before, completedAt, previous)
    ensures WritesSpaced(after) && ReadsSpaced(after)
  {
    forall i, j | 0 <= i < j < |after| && after[i].Sent? && after[j].Sent?
      ensures after[j].start >= after[i].end + Later(after[i].gap, after[j].gap)
    {
      if j < |before| {
        assert before[i] == after[i] && before[j] == after[j];
      } else if i < |before| {
        assert before[i] == after[i];
      }
    }
    forall k | 0 <= k < |after| && after[k].Polled?
      ensures k > 0 && after[k - 1].Sent? && after[k - 1].accepted && after[k].start >= after[k - 1].end + after[k].gap
    {
      if k < |before| {
        assert before[k] == after[k];
        assert k > 0 ==> before[k - 1] == after[k - 1];
      }
    }
  }

  lemma ChargedAppended(before: seq<Event>, after: seq<Event>, completedAt: int, previous: nat, now: int, interval: nat, begin: int)
    requires before <= after && BatchSpaced(after, |before|, interval, begin)
    requires Charged(before, completedAt, previous)
    requires now >= completedAt + previous || before == []
    requires forall i :: 0 <= i < |after| && after[i].Sent? ==> after[i].end <= now
    ensures Charged(after, now, interval)
  {
    forall i | 0 <= i < |after| && after[i].Sent?
      ensures after[i].end + after[i].gap <= now + interval
    {
      if i < |before| {
        assert before[i] == after[i];
      }
    }
  }

  class Owner<S> {
    const executor: DirectExecutor<S>
    const clock: Clock
    var previousInterval: Option<nat>
    var lastCompletedAt: Option<int>

    /** The wire is spaced over everything executed so far, and will be with the next batch. */
    ghost predicate Valid()
      reads this, executor, executor.link, clock
    {
      && executor.clock == clock && executor.Valid()
      && WritesSpaced(executor.link.trace) && ReadsSpaced(executor.link.trace)
      && previousInterval.Some? == lastCompletedAt.Some?
      && (lastCompletedAt.None? ==> executor.link.trace == [])
      && (lastCompletedAt.Some? ==>
            lastCompletedAt.value <= clock.now
            && Charged(executor.link.trace, lastCompletedAt.value, previousInterval.value))
    }

    ghost function Seen(): Scene<S>
      reads this, executor, executor.link
    {
      Scene(executor.link.state, Lines(executor.link.trace))
    }

    constructor (executor: DirectExecutor<S>)
      requires executor.Valid() && executor.link.trace == []
      ensures Valid() && this.executor == executor
    {
      this.executor, this.clock := executor, executor.clock;
      previousInterval, lastCompletedAt := None, None;
    }

    /** A batch of an interval that begins now, after this trace, keeps its distance from the previous one. */
    ghost predicate TurnBegins(before: seq<Event>, begin: int, interval: nat)
      reads this
    {
      && WritesSpaced(before) && ReadsSpaced(before)
      && previousInterval.Some? == lastCompletedAt.Some?
      && (lastCompletedAt.None? ==> before == [])
      && (lastCompletedAt.Some? ==>
            && Charged(before, lastCompletedAt.value, previousInterval.value)
            && begin >= lastCompletedAt.value + Later(previousInterval.value, interval))
    }

    /** Wait until both the previous batch's interval and this one's are over. */
    method WaitForTurn(interval: nat)
      requires Valid()
      modifies clock
      ensures Valid() && clock.now >= old(clock.now)
      ensures TurnBegins(executor.link.trace, clock.now, interval)
    {
      if previousInterval.Some? && lastCompletedAt.Some? {
        var required := Later(previousInterval.value, interval);
        clock.Pass();
        var remaining := required - (clock.now - lastCompletedAt.value);
        if remaining > 0 {
          clock.Sleep(remaining);
        }
      }
    }

    /** The finally branch: note when the batch ended, whether it succeeded or not. */
    method NoteCompletion(interval: nat, ghost before: seq<Event>, ghost begin: int)
      requires executor.clock == clock && executor.Valid() && begin <= clock.now
      requires TurnBegins(before, begin, interval)
      requires before <= executor.link.trace && BatchSpaced(executor.link.trace, |before|, interval, begin)
      modifies this, clock
      ensures Valid() && lastCompletedAt.Some?
    {
      clock.Pass();
      ghost var after := executor.link.trace;
      ghost var last, previous := begin, 0;
      if previousInterval.Some? {
        last, previous := lastCompletedAt.value, previousInterval.value;
      }
      BatchAppended(before, after, last, previous, interval, begin);
      ChargedAppended(before, after, last, previous, clock.now, interval, begin);
      previousInterval := Some(interval);
      lastCompletedAt := Some(clock.now);
    }

    /** A batch under its own interval. */
    method ExecuteAs(batch: seq<Command>, interval: nat) returns (outcome: Outcome)
      requires executor.Valid()
      modifies executor, executor.link`state, executor.link`trace, executor.clock
      ensures executor.Valid() && executor.closed == old(executor.closed)
      ensures old(executor.link.trace) <= executor.link.trace && executor.clock.now >= old(executor.clock.now)
      ensures BatchSpaced(executor.link.trace, |old(executor.link.trace)|, interval, old(executor.clock.now))
      ensures (Seen(), outcome) == AfterBatch(executor.link.dev, executor.closed, old(Seen()), batch)
    {
      executor.interval := interval;
      outcome := executor.Execute(batch);
      LinesOfRest(old(executor.link.trace), executor.link.trace);
    }

    /** The batch of one turn: wait, execute under the batch's own interval, note the completion. */
    method ExecuteInTurn(batch: seq<Command>, interval: nat) returns (outcome: Outcome)
      requires Valid()
      modifies this, executor, executor.link`state, executor.link`trace, clock
      ensures Valid() && executor.closed == old(executor.closed)
      ensures (Seen(), outcome) == AfterBatch(executor.link.dev, executor.closed, old(Seen()), batch)
    {
      ghost var before, trace := Seen(), executor.link.trace;
      WaitForTurn(interval);
      ghost var begin := clock.now;
      assert Seen() == before;
      outcome := ExecuteAs(batch, interval);
      ghost var after := Seen();
      NoteCompletion(interval, trace, begin);
      assert Seen() == after;
    }

    /** One turn of the worker's loop. */
    method Serve(work: Work) returns (ghost outcome: Outcome)
      requires Valid() && work.Untouched()
      modifies this, work, executor, executor.link`state, executor.link`trace, clock
      ensures Valid() && executor.closed == old(executor.closed) && work.CompletedWith(outcome)
      ensures (Seen(), outcome) == AfterBatch(executor.link.dev, executor.closed, old(Seen()), work.batch)
    {
      work.state := Executing;
      var result := ExecuteInTurn(work.batch, work.interval);
      work.Complete(result);
      outcome := result;
    }

    /** The worker's loop over everything ever put into the queue, in order; null is the close sentinel, and
        the worker waits when it has reached the end. Every batch ahead of the sentinel is completed, once
        and in order, with the outcome of running it after those ahead of it; what is behind the sentinel
        is never touched. What has been put on the wire are the batches one after the other, each in full or
        up to its failing command, and whatever the intervals and outcomes the whole wire is spaced. */
    method Run(queue: seq<Work?>) returns (served: nat)
      requires Valid() && !executor.closed
      requires forall i :: 0 <= i < |queue| && queue[i] != null ==> queue[i].Untouched()
      requires forall i, j :: 0 <= i < j < |queue| && queue[i] != null ==> queue[i] != queue[j]
      modifies this, queue, executor, executor.link`state, executor.link`trace, clock
      ensures Valid()
      ensures served <= |queue| && (forall i :: 0 <= i < served ==> queue[i] != null)
      ensures served < |queue| ==> queue[served] == null
      ensures
        var (scene, outcomes) := AfterAll(executor.link.dev, old(Seen()), BatchesOf(queue[..served]));
        && Seen() == scene
        && |outcomes| == served && forall i :: 0 <= i < served ==> queue[i].CompletedWith(outcomes[i])
      ensures forall i :: served <= i < |queue| && queue[i] != null ==> queue[i].Untouched()
      ensures WritesSpaced(executor.link.trace) && ReadsSpaced(executor.link.trace)
    {
      served := 0;
      ghost var start, outcomes: seq<Outcome> := Seen(), [];
      assert queue[..0] == [] && BatchesOf(queue[..0]) == [] && start.lines + [] == start.lines;
      while served < |queue|
        invariant Served(queue, served, start, outcomes)
      {
        if queue[served] == null {
          return;
        }
        outcomes := ServeNext(queue, served, start, outcomes);
        served := served + 1;
      }
    }

    /** The first k entries are completed batches, in order from a start; the others are as they were. */
    ghost predicate Served(queue: seq<Work?>, k: nat, start: Scene<S>, outcomes: seq<Outcome>)
      reads this, executor, executor.link, clock, queue
    {
      && Valid() && !executor.closed && k <= |queue| && |outcomes| == k
      && (forall i :: 0 <= i < k ==> queue[i] != null)
      && (Seen(), outcomes) == AfterAll(executor.link.dev, start, BatchesOf(queue[..k]))
      && (forall i :: 0 <= i < k ==> queue[i].CompletedWith(outcomes[i]))
      && (forall i :: k <= i < |queue| && queue[i] != null ==> queue[i].Untouched())
    }

    method ServeNext(queue: seq<Work?>, k: nat, ghost start: Scene<S>, ghost outcomes: seq<Outcome>)
      returns (ghost extended: seq<Outcome>)
      requires k < |queue| && queue[k] != null && Served(queue, k, start, outcomes)
      requires forall i, j :: 0 <= i < j < |queue| && queue[i] != null ==> queue[i] != queue[j]
      modifies this, queue[k], executor, executor.link`state, executor.link`trace, clock
      ensures Served(queue, k + 1, start, extended)
    {
      var work := queue[k];
      BatchesOfNext(queue, k);
      AfterOneMore(executor.link.dev, start, BatchesOf(queue[..k]), work.batch);
      ghost var outcome := Serve(work);
      extended := outcomes + [outcome];
    }
  }

  function BatchesOf(queue: seq<Work?>): seq<seq<Command>>
    requires forall i :: 0 <= i < |queue| ==> queue[i] != null
  {
    seq(|queue|, i requires 0 <= i < |queue| => queue[i].batch)
  }

  lemma BatchesOfNext(queue: seq<Work?>, k: nat)
    requires k < |queue| && forall i :: 0 <= i <= k ==> queue[i] != null
    ensures BatchesOf(queue[..k + 1]) == BatchesOf(queue[..k]) + [queue[k].batch]
    ensures BatchesOf(queue[..k + 1])[..k] == BatchesOf(queue[..k])
  {
  }

}
