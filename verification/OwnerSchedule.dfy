/** Many clients, one queue, one worker: every interleaving of submissions with the commands of the batch
    being executed, and with the gateway being closed (gateway/server.py). */
module OwnerSchedule {

  import opened Wrappers
  import opened Errors
  import opened Commands
  import opened Devices
  import opened Timing
  import opened PhysicalOwner

  /** What a put puts into the queue. */
  datatype Entry = Batch(client: nat, commands: seq<Command>) | Sentinel

  /** Where the worker is. Running holds the values collected so far; Reporting an outcome not yet
      published. Died: an exception the worker does not catch ended its thread. */
  datatype Worker =
    | Idle
    | Waiting
    | Running(values: seq<Option<string>>)
    | Reporting(outcome: Outcome)
    | Stopped
    | Died

  /** A command sent, with the queue position of its batch. */
  datatype Sending = Sending(job: nat, command: Command)

  /** What is published for a batch. Neither stands for a batch reported done without result and error,
      after some of its commands. */
  datatype Report = Answered(outcome: Outcome) | Neither(sent: nat)

  /** puts holds everything ever queued, in order; taken counts what the worker has taken off. locked says
      whether the worker holds the executor's lock. reports holds, per batch taken, what was published, in
      order. */
  datatype State<S> = State(
    puts: seq<Entry>,
    taken: nat,
    worker: Worker,
    closing: bool,
    locked: bool,
    executorClosed: bool,
    world: S,
    wire: seq<Sending>,
    reports: seq<Report>)

  datatype Step =
    | Submit(client: nat, commands: seq<Command>)  // a client thread puts its batch
    | Close                                        // close() puts the sentinel
    | Take                                         // the worker takes the next entry
    | Enter                                        // the worker has waited its turn and calls execute
    | Advance                                      // the worker executes one command
    | Publish                                      // the worker reports and goes back to the queue
    | Die                                          // an exception the worker does not catch ends its thread
    | CloseExecutor                                // the join is over, or has timed out

  function Initial<S>(world: S): State<S> {
    State([], 0, Idle, false, false, false, world, [], [])
  }

  /** The batch the worker is at. */
  predicate AtBatch<S>(st: State<S>) {
    0 < st.taken <= |st.puts| && st.puts[st.taken - 1].Batch?
  }

  /** execute and close of the executor take its lock; close gives it back at once. An empty batch cannot be
      built. */
  predicate Enabled<S>(st: State<S>, step: Step) {
    match step
    case Submit(_, commands) => commands != []
    case Close => !st.closing
    case Take => st.worker == Idle && st.taken < |st.puts|
    case Enter => st.worker == Waiting && AtBatch(st) && !st.locked
    case Advance =>
      && st.worker.Running? && AtBatch(st)
      && |st.worker.values| < |st.puts[st.taken - 1].commands|
    case Publish => st.worker.Reporting?
    case Die => st.worker == Waiting || st.worker.Running?
    case CloseExecutor => st.closing && !st.locked
  }

  function Next<S>(dev: Device<S>, st: State<S>, step: Step): State<S>
    requires Enabled(st, step)
  {
    match step
    case Submit(client, commands) => st.(puts := st.puts + [Batch(client, commands)])
    case Close => st.(puts := st.puts + [Sentinel], closing := true)
    case Take =>
      st.(taken := st.taken + 1, worker := if st.puts[st.taken].Sentinel? then Stopped else Waiting)
    case Enter =>
      if st.executorClosed then st.(worker := Reporting(Raised(EXECUTOR_CLOSED)))
      else st.(worker := Running([]), locked := true)
    case Advance =>
      var batch := st.puts[st.taken - 1].commands;
      var k := |st.worker.values|;
      var (world, result) := Exchange(dev, st.world, batch[k]);
      var sent := st.(world := world, wire := st.wire + [Sending(st.taken - 1, batch[k])]);
      (match result
       case Failure(fault) => sent.(worker := Reporting(Raised(RaisedFor(fault, k, batch[k]))), locked := false)
       case Success(value) =>
         var values := st.worker.values + [value];
         if k + 1 == |batch| then sent.(worker := Reporting(Values(values)), locked := false)
         else sent.(worker := Running(values)))
    case Publish => st.(worker := Idle, reports := st.reports + [Answered(st.worker.outcome)])
    case Die =>
      var sent := if st.worker.Running? then |st.worker.values| else 0;
      st.(worker := Died, locked := false, reports := st.reports + [Neither(sent)])
    case CloseExecutor => st.(executorClosed := true)
  }

  // ----- what the reports say happened -----

  function Sendings(job: nat, commands: seq<Command>): seq<Sending> {
    seq(|commands|, i requires 0 <= i < |commands| => Sending(job, commands[i]))
  }

  /** The commands of a batch that a report stands for, given the instrument's state before it. */
  function Extent<S>(dev: Device<S>, s: S, batch: seq<Command>, report: Report): seq<Command> {
    match report
    case Neither(sent) => if sent <= |batch| then batch[..sent] else batch
    case Answered(outcome) =>
      if outcome == Raised(EXECUTOR_CLOSED) then [] else batch[..Attempted(RunCommands(dev, s, batch))]
  }

  function CommandsAt(puts: seq<Entry>, i: nat): seq<Command> {
    if i < |puts| && puts[i].Batch? then puts[i].commands else []
  }

  /** One batch after the other, each without a break: the state and the wire after the reported ones. */
  function Replay<S>(dev: Device<S>, s: S, puts: seq<Entry>, reports: seq<Report>): (S, seq<Sending>) {
    if reports == [] then (s, [])
    else
      var j := |reports| - 1;
      var (before, wire) := Replay(dev, s, puts, reports[..j]);
      var extent := Extent(dev, before, CommandsAt(puts, j), reports[j]);
      (RunCommands(dev, before, extent).world, wire + Sendings(j, extent))
  }

  /** Every answer is the outcome of running the batch in full, from the state its turn found, or says that
      the executor was closed. */
  ghost predicate Truthful<S>(dev: Device<S>, s: S, puts: seq<Entry>, reports: seq<Report>) {
    forall j :: 0 <= j < |reports| && reports[j].Answered? ==>
      var before := Replay(dev, s, puts, reports[..j]).0;
      var batch := CommandsAt(puts, j);
      || reports[j].outcome == Raised(EXECUTOR_CLOSED)
      || reports[j].outcome == OutcomeOf(RunCommands(dev, before, batch), batch)
  }

  /** Only batches, none of them empty, are reported on, in queue order; the worker is at most one entry
      ahead of the reports, and holds the lock exactly while it executes. */
  predicate Accounted<S>(st: State<S>) {
    var j := |st.reports|;
    && (forall i :: 0 <= i < |st.puts| && st.puts[i].Batch? ==> st.puts[i].commands != [])
    && (forall i :: 0 <= i < j ==> i < |st.puts| && st.puts[i].Batch?)
    && st.taken <= |st.puts|
    && (st.locked <==> st.worker.Running?)
    && match st.worker
       case Idle => st.taken == j
       case Died => st.taken == j
       case Stopped => st.taken == j + 1 && st.puts[j].Sentinel?
       case _ => st.taken == j + 1 && st.puts[j].Batch?
  }

  /** Where the worker stands, given the state and the wire before the batch it is at. */
  ghost predicate AtWork<S>(dev: Device<S>, before: S, wire: seq<Sending>, st: State<S>) {
    var j := |st.reports|;
    var batch := CommandsAt(st.puts, j);
    match st.worker
    case Running(values) =>
      && !st.executorClosed && |values| < |batch|
      && RunCommands(dev, before, batch[..|values|]) == Run(st.world, values, None)
      && st.wire == wire + Sendings(j, batch[..|values|])
    case Reporting(outcome) =>
      if outcome == Raised(EXECUTOR_CLOSED) then st.world == before && st.wire == wire
      else
        var run := RunCommands(dev, before, batch);
        && outcome == OutcomeOf(run, batch) && st.world == run.world
        && st.wire == wire + Sendings(j, batch[..Attempted(run)])
    case _ => st.world == before && st.wire == wire
  }

  /** The invariant of the gateway's owner. */
  ghost predicate Valid<S>(dev: Device<S>, s: S, st: State<S>) {
    var (before, wire) := Replay(dev, s, st.puts, st.reports);
    Accounted(st) && Truthful(dev, s, st.puts, st.reports) && AtWork(dev, before, wire, st)
  }

  /** What was reported does not depend on what is put into the queue later. */
  lemma {:induction false} ReplayOfMorePuts<S>(dev: Device<S>, s: S, puts: seq<Entry>, e: Entry, reports: seq<Report>)
    requires |reports| <= |puts|
    ensures Replay(dev, s, puts + [e], reports) == Replay(dev, s, puts, reports)
  {
    if reports != [] {
      ReplayOfMorePuts(dev, s, puts, e, reports[..|reports| - 1]);
    }
  }

  lemma TruthfulWithMorePuts<S>(dev: Device<S>, s: S, puts: seq<Entry>, e: Entry, reports: seq<Report>)
    requires |reports| <= |puts| && Truthful(dev, s, puts, reports)
    ensures Truthful(dev, s, puts + [e], reports)
  {
    forall j | 0 <= j < |reports|
      ensures Replay(dev, s, puts + [e], reports[..j]) == Replay(dev, s, puts, reports[..j])
    {
      ReplayOfMorePuts(dev, s, puts, e, reports[..j]);
    }
  }

  lemma OneMoreReport<S>(dev: Device<S>, s: S, puts: seq<Entry>, reports: seq<Report>, report: Report)
    ensures
      var j := |reports|;
      var (before, wire) := Replay(dev, s, puts, reports);
      var extent := Extent(dev, before, CommandsAt(puts, j), report);
      Replay(dev, s, puts, reports + [report]) == (RunCommands(dev, before, extent).world, wire + Sendings(j, extent))
    ensures Truthful(dev, s, puts, reports) &&
      (report.Answered? ==>
         var before := Replay(dev, s, puts, reports).0;
         var batch := CommandsAt(puts, |reports|);
         || report.outcome == Raised(EXECUTOR_CLOSED)
         || report.outcome == OutcomeOf(RunCommands(dev, before, batch), batch))
      ==> Truthful(dev, s, puts, reports + [report])
  {
    assert (reports + [report])[..|reports|] == reports;
    assert forall j :: 0 <= j < |reports| ==> (reports + [report])[..j] == reports[..j];
  }

  /** Running only the attempted part of a batch gives the same state. */
  lemma AttemptedIsEnough<S>(dev: Device<S>, s: S, batch: seq<Command>)
    ensures Attempted(RunCommands(dev, s, batch)) <= |batch|
    ensures RunCommands(dev, s, batch[..Attempted(RunCommands(dev, s, batch))]).world == RunCommands(dev, s, batch).world
  {
    var run := RunCommands(dev, s, batch);
    if run.fault.None? {
      assert batch[..|batch|] == batch;
    } else {
      FaultEndsPrefix(dev, s, batch, |run.values| + 1);
    }
  }

  lemma {:induction false} FaultEndsPrefix<S>(dev: Device<S>, s: S, batch: seq<Command>, n: nat)
    requires RunCommands(dev, s, batch).fault.Some? && n == |RunCommands(dev, s, batch).values| + 1
    ensures n <= |batch| && RunCommands(dev, s, batch[..n]) == RunCommands(dev, s, batch)
  {
    var prefix := batch[..|batch| - 1];
    if RunCommands(dev, s, prefix).fault.Some? {
      LastAfterFault(dev, s, batch);
      FaultEndsPrefix(dev, s, prefix, n);
      assert prefix[..n] == batch[..n];
    } else {
      LastFaults(dev, s, batch);
      assert batch[..n] == batch;
    }
  }

  lemma LastAfterFault<S>(dev: Device<S>, s: S, batch: seq<Command>)
    requires batch != [] && RunCommands(dev, s, batch[..|batch| - 1]).fault.Some?
    ensures RunCommands(dev, s, batch) == RunCommands(dev, s, batch[..|batch| - 1])
  {
  }

  lemma LastFaults<S>(dev: Device<S>, s: S, batch: seq<Command>)
    requires RunCommands(dev, s, batch).fault.Some? && RunCommands(dev, s, batch[..|batch| - 1]).fault.None?
    ensures |RunCommands(dev, s, batch).values| + 1 == |batch|
  {
  }

  lemma AccountedNext<S>(dev: Device<S>, st: State<S>, step: Step)
    requires Accounted(st) && Enabled(st, step)
    ensures Accounted(Next(dev, st, step))
  {
  }

  lemma SubmitAtWork<S>(dev: Device<S>, before: S, wire: seq<Sending>, st: State<S>, step: Step)
    requires Accounted(st) && AtWork(dev, before, wire, st) && Enabled(st, step) && (step.Submit? || step.Close?)
    ensures AtWork(dev, before, wire, Next(dev, st, step))
  {
    assert st.worker.Running? || st.worker.Reporting? ==>
      CommandsAt(Next(dev, st, step).puts, |st.reports|) == CommandsAt(st.puts, |st.reports|);
  }

  lemma EnterAtWork<S>(dev: Device<S>, before: S, wire: seq<Sending>, st: State<S>)
    requires Accounted(st) && AtWork(dev, before, wire, st) && Enabled(st, Enter)
    ensures AtWork(dev, before, wire, Next(dev, st, Enter))
  {
    assert CommandsAt(st.puts, |st.reports|)[..0] == [];
    assert wire + Sendings(|st.reports|, []) == wire;
  }

  lemma AdvanceAtWork<S>(dev: Device<S>, before: S, wire: seq<Sending>, st: State<S>)
    requires Accounted(st) && AtWork(dev, before, wire, st) && Enabled(st, Advance)
    ensures AtWork(dev, before, wire, Next(dev, st, Advance))
  {
    var j, k := |st.reports|, |st.worker.values|;
    var batch, next := CommandsAt(st.puts, j), Next(dev, st, Advance);
    var (world, result) := Exchange(dev, st.world, batch[k]);
    OneMoreSending(wire, j, batch, k);
    RunOneMore(dev, before, batch, k, st.world, st.worker.values);
    if result.Failure? {
      RunEndsAtFault(dev, before, batch, k + 1);
      FaultIsNotClosed(result.error, k, batch[k]);
      ReportingAtWork(dev, before, wire, next, batch, Run(world, st.worker.values, Some(result.error)));
    } else if k + 1 == |batch| {
      assert batch[..k + 1] == batch;
      ReportingAtWork(dev, before, wire, next, batch, Run(world, st.worker.values + [result.value], None));
    }
  }

  lemma ReportingAtWork<S>(dev: Device<S>, before: S, wire: seq<Sending>, st: State<S>, batch: seq<Command>, run: Run<S>)
    requires batch == CommandsAt(st.puts, |st.reports|) && run == RunCommands(dev, before, batch)
    requires st.worker == Reporting(OutcomeOf(run, batch)) && st.worker.outcome != Raised(EXECUTOR_CLOSED)
    requires st.world == run.world && st.wire == wire + Sendings(|st.reports|, batch[..Attempted(run)])
    ensures AtWork(dev, before, wire, st)
  {
  }

  lemma OneMoreSending(wire: seq<Sending>, j: nat, batch: seq<Command>, k: nat)
    requires k < |batch|
    ensures (wire + Sendings(j, batch[..k])) + [Sending(j, batch[k])] == wire + Sendings(j, batch[..k + 1])
  {
  }

  lemma FaultIsNotClosed(fault: Fault, k: nat, command: Command)
    ensures RaisedFor(fault, k, command) != EXECUTOR_CLOSED
  {
  }

  lemma RunOneMore<S>(dev: Device<S>, s: S, batch: seq<Command>, k: nat, world: S, values: seq<Option<string>>)
    requires k < |batch| && RunCommands(dev, s, batch[..k]) == Run(world, values, None)
    ensures
      var (after, result) := Exchange(dev, world, batch[k]);
      RunCommands(dev, s, batch[..k + 1])
      == if result.Success? then Run(after, values + [result.value], None) else Run(after, values, Some(result.error))
  {
    assert batch[..k + 1][..k] == batch[..k];
  }

  /** Publishing leaves the worker idle after exactly what the report says. */
  lemma PublishAtWork<S>(dev: Device<S>, before: S, wire: seq<Sending>, st: State<S>)
    requires Accounted(st) && AtWork(dev, before, wire, st) && Enabled(st, Publish)
    ensures
      var batch := CommandsAt(st.puts, |st.reports|);
      var extent := Extent(dev, before, batch, Answered(st.worker.outcome));
      && st.world == RunCommands(dev, before, extent).world
      && st.wire == wire + Sendings(|st.reports|, extent)
      && (st.worker.outcome == Raised(EXECUTOR_CLOSED)
          || st.worker.outcome == OutcomeOf(RunCommands(dev, before, batch), batch))
  {
    AttemptedIsEnough(dev, before, CommandsAt(st.puts, |st.reports|));
    assert wire + Sendings(|st.reports|, []) == wire;
  }

  lemma DieAtWork<S>(dev: Device<S>, before: S, wire: seq<Sending>, st: State<S>)
    requires Accounted(st) && AtWork(dev, before, wire, st) && Enabled(st, Die)
    ensures
      var sent := if st.worker.Running? then |st.worker.values| else 0;
      var extent := Extent(dev, before, CommandsAt(st.puts, |st.reports|), Neither(sent));
      st.world == RunCommands(dev, before, extent).world && st.wire == wire + Sendings(|st.reports|, extent)
  {
    assert CommandsAt(st.puts, |st.reports|)[..0] == [];
    assert wire + Sendings(|st.reports|, []) == wire;
  }

  lemma NextKeepsValid<S>(dev: Device<S>, s: S, st: State<S>, step: Step)
    requires Valid(dev, s, st) && Enabled(st, step)
    ensures Valid(dev, s, Next(dev, st, step))
  {
    var (before, wire) := Replay(dev, s, st.puts, st.reports);
    AccountedNext(dev, st, step);
    match step
    case Submit(_, _) => QueueingKeepsValid(dev, s, st, step);
    case Close => QueueingKeepsValid(dev, s, st, step);
    case Enter => EnterAtWork(dev, before, wire, st);
    case Advance => AdvanceAtWork(dev, before, wire, st);
    case Publish =>
      PublishAtWork(dev, before, wire, st);
      OneMoreReport(dev, s, st.puts, st.reports, Answered(st.worker.outcome));
    case Die =>
      DieAtWork(dev, before, wire, st);
      OneMoreReport(dev, s, st.puts, st.reports, Neither(if st.worker.Running? then |st.worker.values| else 0));
    case _ =>
  }

  lemma QueueingKeepsValid<S>(dev: Device<S>, s: S, st: State<S>, step: Step)
    requires Valid(dev, s, st) && Enabled(st, step) && (step.Submit? || step.Close?)
    ensures Valid(dev, s, Next(dev, st, step))
  {
    var (before, wire) := Replay(dev, s, st.puts, st.reports);
    var e := if step.Submit? then Batch(step.client, step.commands) else Sentinel;
    AccountedNext(dev, st, step);
    ReplayOfMorePuts(dev, s, st.puts, e, st.reports);
    TruthfulWithMorePuts(dev, s, st.puts, e, st.reports);
    SubmitAtWork(dev, before, wire, st, step);
  }

  // ----- every schedule -----

  ghost predicate IsRun<S>(dev: Device<S>, s: S, steps: seq<Step>)
    decreases |steps|, 0
  {
    steps == [] ||
    (IsRun(dev, s, steps[..|steps| - 1]) && Enabled(After(dev, s, steps[..|steps| - 1]), steps[|steps| - 1]))
  }

  ghost function After<S>(dev: Device<S>, s: S, steps: seq<Step>): State<S>
    requires IsRun(dev, s, steps)
    decreases |steps|, 1
  {
    if steps == [] then Initial(s) else Next(dev, After(dev, s, steps[..|steps| - 1]), steps[|steps| - 1])
  }

  /** Under every schedule of any number of clients the wire is the concatenation, in queue order, of one
      unbroken piece per batch taken, and of what the batch being executed has sent so far. */
  lemma {:induction false} EveryScheduleIsValid<S>(dev: Device<S>, s: S, steps: seq<Step>)
    requires IsRun(dev, s, steps)
    ensures Valid(dev, s, After(dev, s, steps))
  {
    if steps != [] {
      EveryScheduleIsValid(dev, s, steps[..|steps| - 1]);
      NextKeepsValid(dev, s, After(dev, s, steps[..|steps| - 1]), steps[|steps| - 1]);
    }
  }

  // ----- what that means -----

  /** The commands of one batch on the wire, in order. */
  function SentFor(wire: seq<Sending>, job: nat): seq<Command> {
    if wire == [] then []
    else
      var last := wire[|wire| - 1];
      SentFor(wire[..|wire| - 1], job) + (if last.job == job then [last.command] else [])
  }

  lemma {:induction false} SentForAppend(a: seq<Sending>, b: seq<Sending>, job: nat)
    ensures SentFor(a + b, job) == SentFor(a, job) + SentFor(b, job)
  {
    if b == [] {
      assert a + b == a;
    } else {
      assert (a + b)[..|a + b| - 1] == a + b[..|b| - 1];
      SentForAppend(a, b[..|b| - 1], job);
    }
  }

  lemma {:induction false} SentForSendings(i: nat, commands: seq<Command>, job: nat)
    ensures SentFor(Sendings(i, commands), job) == if i == job then commands else []
  {
    if commands != [] {
      var n := |commands| - 1;
      assert Sendings(i, commands)[..n] == Sendings(i, commands[..n]);
      SentForSendings(i, commands[..n], job);
    }
  }

  /** A wire that names only batches before n, in queue order. */
  ghost predicate Ordered(wire: seq<Sending>, n: nat) {
    && (forall a :: 0 <= a < |wire| ==> wire[a].job < n)
    && (forall a, b :: 0 <= a < b < |wire| ==> wire[a].job <= wire[b].job)
  }

  lemma OrderedNext(wire: seq<Sending>, n: nat, commands: seq<Command>)
    requires Ordered(wire, n)
    ensures Ordered(wire + Sendings(n, commands), n + 1)
  {
  }

  /** Reports replayed: the wire names only reported batches, in queue order. */
  lemma {:induction false} ReplayIsOrdered<S>(dev: Device<S>, s: S, puts: seq<Entry>, reports: seq<Report>)
    ensures Ordered(Replay(dev, s, puts, reports).1, |reports|)
  {
    if reports != [] {
      var n := |reports| - 1;
      ReplayIsOrdered(dev, s, puts, reports[..n]);
      var (before, wire) := Replay(dev, s, puts, reports[..n]);
      OrderedNext(wire, n, Extent(dev, before, CommandsAt(puts, n), reports[n]));
    }
  }

  lemma SentForReplay<S>(dev: Device<S>, s: S, puts: seq<Entry>, reports: seq<Report>, j: nat)
    requires reports != []
    ensures
      var n := |reports| - 1;
      var (before, wire) := Replay(dev, s, puts, reports[..n]);
      SentFor(Replay(dev, s, puts, reports).1, j)
      == SentFor(wire, j) + (if n == j then Extent(dev, before, CommandsAt(puts, n), reports[n]) else [])
  {
    var n := |reports| - 1;
    var (before, wire) := Replay(dev, s, puts, reports[..n]);
    var extent := Extent(dev, before, CommandsAt(puts, n), reports[n]);
    SentForAppend(wire, Sendings(n, extent), j);
    SentForSendings(n, extent, j);
  }

  lemma {:induction false} NothingSentYet<S>(dev: Device<S>, s: S, puts: seq<Entry>, reports: seq<Report>, j: nat)
    requires |reports| <= j
    ensures SentFor(Replay(dev, s, puts, reports).1, j) == []
  {
    if reports != [] {
      NothingSentYet(dev, s, puts, reports[..|reports| - 1], j);
      SentForReplay(dev, s, puts, reports, j);
    }
  }

  /** Reports replayed: the wire holds of each reported batch exactly what its report stands for. */
  lemma SentAsReported<S>(dev: Device<S>, s: S, puts: seq<Entry>, reports: seq<Report>, j: nat)
    requires j < |reports|
    ensures SentFor(Replay(dev, s, puts, reports).1, j)
         == Extent(dev, Replay(dev, s, puts, reports[..j]).0, CommandsAt(puts, j), reports[j])
  {
    assert reports[..j + 1][..j] == reports[..j];
    LastIsSentAsReported(dev, s, puts, reports[..j + 1]);
    LaterSendNothingElse(dev, s, puts, reports, reports[..j + 1], j);
  }

  /** What later batches send is not theirs. */
  lemma {:induction false} LaterSendNothingElse<S>(dev: Device<S>, s: S, puts: seq<Entry>, reports: seq<Report>,
                                                   earlier: seq<Report>, j: nat)
    requires j < |earlier| && earlier <= reports
    ensures SentFor(Replay(dev, s, puts, reports).1, j) == SentFor(Replay(dev, s, puts, earlier).1, j)
    decreases |reports|
  {
    if |earlier| == |reports| {
      assert earlier == reports;
    } else {
      LaterSendNothingElse(dev, s, puts, reports[..|reports| - 1], earlier, j);
      LastSendsNothingElse(dev, s, puts, reports, j);
    }
  }

  lemma LastSendsNothingElse<S>(dev: Device<S>, s: S, puts: seq<Entry>, reports: seq<Report>, j: nat)
    requires j < |reports| - 1
    ensures SentFor(Replay(dev, s, puts, reports).1, j) == SentFor(Replay(dev, s, puts, reports[..|reports| - 1]).1, j)
  {
    SentForReplay(dev, s, puts, reports, j);
    var sent := SentFor(Replay(dev, s, puts, reports[..|reports| - 1]).1, j);
    assert sent + [] == sent;
  }

  lemma LastIsSentAsReported<S>(dev: Device<S>, s: S, puts: seq<Entry>, reports: seq<Report>)
    requires reports != []
    ensures
      var n := |reports| - 1;
      SentFor(Replay(dev, s, puts, reports).1, n)
      == Extent(dev, Replay(dev, s, puts, reports[..n]).0, CommandsAt(puts, n), reports[n])
  {
    var n := |reports| - 1;
    SentForReplay(dev, s, puts, reports, n);
    NothingSentYet(dev, s, puts, reports[..n], n);
  }

  /** What the batch being executed has sent so far. */
  ghost predicate SentByCurrent<S>(dev: Device<S>, s: S, st: State<S>, extra: seq<Command>) {
    && st.wire == Replay(dev, s, st.puts, st.reports).1 + Sendings(|st.reports|, extra)
    && (extra != [] ==> st.worker.Running? || st.worker.Reporting?)
  }

  lemma CurrentHasSent<S>(dev: Device<S>, s: S, st: State<S>) returns (extra: seq<Command>)
    requires Valid(dev, s, st)
    ensures SentByCurrent(dev, s, st, extra)
  {
    var (before, wire) := Replay(dev, s, st.puts, st.reports);
    var batch := CommandsAt(st.puts, |st.reports|);
    assert wire + Sendings(|st.reports|, []) == wire;
    extra := [];
    if st.worker.Running? {
      extra := batch[..|st.worker.values|];
    } else if st.worker.Reporting? && st.worker.outcome != Raised(EXECUTOR_CLOSED) {
      AttemptedIsEnough(dev, before, batch);
      extra := batch[..Attempted(RunCommands(dev, before, batch))];
    }
  }

  /** No two batches interleave on the wire: once a command of a later batch has been sent, no command of an
      earlier one follows; and batches come in the order in which they were queued. */
  lemma BatchesDoNotInterleave<S>(dev: Device<S>, s: S, steps: seq<Step>, a: nat, b: nat)
    requires IsRun(dev, s, steps) && a <= b < |After(dev, s, steps).wire|
    ensures After(dev, s, steps).wire[a].job <= After(dev, s, steps).wire[b].job
  {
    EveryScheduleIsValid(dev, s, steps);
    var st := After(dev, s, steps);
    ReplayIsOrdered(dev, s, st.puts, st.reports);
    var extra := CurrentHasSent(dev, s, st);
    OrderedNext(Replay(dev, s, st.puts, st.reports).1, |st.reports|, extra);
  }

  /** A batch answered with a result was sent in full; one answered with an execution error was sent up to
      and including the failing command, which the error names; none of it was sent if the executor was
      closed. In each case the answer is that of running the batch from the state its turn found. */
  lemma AnsweredBatches<S>(dev: Device<S>, s: S, steps: seq<Step>, j: nat)
    requires IsRun(dev, s, steps)
    requires j < |After(dev, s, steps).reports| && After(dev, s, steps).reports[j].Answered?
    ensures
      var st := After(dev, s, steps);
      var batch := CommandsAt(st.puts, j);
      var run := RunCommands(dev, Replay(dev, s, st.puts, st.reports[..j]).0, batch);
      var sent := SentFor(st.wire, j);
      match st.reports[j].outcome
      case Values(values) => run.fault.None? && values == run.values && sent == batch && |values| == |batch|
      case Raised(e) =>
        || (e == EXECUTOR_CLOSED && sent == [])
        || (run.fault.Some? && sent == batch[..|run.values| + 1]
            && e == RaisedFor(run.fault.value, |run.values|, batch[|run.values|]))
  {
    EveryScheduleIsValid(dev, s, steps);
    var st := After(dev, s, steps);
    SentOfAnswered(dev, s, st, j);
    var batch := CommandsAt(st.puts, j);
    assert batch[..|batch|] == batch;
  }

  lemma SentOfAnswered<S>(dev: Device<S>, s: S, st: State<S>, j: nat)
    requires Valid(dev, s, st) && j < |st.reports|
    ensures SentFor(st.wire, j)
         == Extent(dev, Replay(dev, s, st.puts, st.reports[..j]).0, CommandsAt(st.puts, j), st.reports[j])
  {
    SentAsReported(dev, s, st.puts, st.reports, j);
    var extra := CurrentHasSent(dev, s, st);
    SentForAppend(Replay(dev, s, st.puts, st.reports).1, Sendings(|st.reports|, extra), j);
    SentForSendings(|st.reports|, extra, j);
  }

  /** Reports are published one at a time, for the next batch in line, and never taken back; only the
      worker's own last step for a batch publishes one. */
  lemma ReportedOnce<S>(dev: Device<S>, st: State<S>, step: Step)
    requires Accounted(st) && Enabled(st, step)
    ensures st.reports <= Next(dev, st, step).reports && st.puts <= Next(dev, st, step).puts
    ensures Next(dev, st, step).reports != st.reports ==>
      && |Next(dev, st, step).reports| == |st.reports| + 1 == st.taken
      && st.puts[|st.reports|].Batch? && (step == Publish || step == Die)
  {
  }

  /** What is queued behind the sentinel is never taken off the queue, let alone answered. */
  lemma NothingBehindSentinel<S>(dev: Device<S>, s: S, steps: seq<Step>, p: nat)
    requires IsRun(dev, s, steps)
    requires p < |After(dev, s, steps).puts| && After(dev, s, steps).puts[p].Sentinel?
    ensures |After(dev, s, steps).reports| <= p && After(dev, s, steps).taken <= p + 1
    ensures forall a :: 0 <= a < |After(dev, s, steps).wire| ==> After(dev, s, steps).wire[a].job < p
  {
    EveryScheduleIsValid(dev, s, steps);
    var st := After(dev, s, steps);
    QueueStopsAtSentinel(st, p);
    ReplayIsOrdered(dev, s, st.puts, st.reports);
    var extra := CurrentHasSent(dev, s, st);
    OrderedNext(Replay(dev, s, st.puts, st.reports).1, |st.reports|, extra);
    if extra == [] {
      assert st.wire == Replay(dev, s, st.puts, st.reports).1;
    }
  }

  lemma QueueStopsAtSentinel<S>(st: State<S>, p: nat)
    requires Accounted(st) && p < |st.puts| && st.puts[p].Sentinel?
    ensures |st.reports| <= p && st.taken <= p + 1
    ensures st.worker.Running? || st.worker.Reporting? ==> |st.reports| < p
  {
  }

  /** The lock keeps the closing of the executor between batches: it never happens while one is being sent,
      and nothing is sent afterwards, even if the join timed out with the worker still at work. */
  lemma ClosedBetweenBatches<S>(dev: Device<S>, s: S, steps: seq<Step>, step: Step)
    requires IsRun(dev, s, steps) && Enabled(After(dev, s, steps), step)
    ensures step == CloseExecutor ==> !After(dev, s, steps).worker.Running?
    ensures After(dev, s, steps).executorClosed ==>
      Next(dev, After(dev, s, steps), step).wire == After(dev, s, steps).wire
  {
    EveryScheduleIsValid(dev, s, steps);
  }

  // ----- the death of the worker -----

  /** A report without result and error is the last one, of a worker that has died. */
  ghost predicate OnlyDeathIsSilent<S>(st: State<S>) {
    forall j :: 0 <= j < |st.reports| && st.reports[j].Neither? ==> st.worker.Died? && j == |st.reports| - 1
  }

  /** Every batch reported done has a result or an error, unless the worker died in it; and then it is the
      last one ever reported. */
  lemma {:induction false} AnsweredUnlessDied<S>(dev: Device<S>, s: S, steps: seq<Step>)
    requires IsRun(dev, s, steps)
    ensures OnlyDeathIsSilent(After(dev, s, steps))
  {
    if steps != [] {
      AnsweredUnlessDied(dev, s, steps[..|steps| - 1]);
    }
  }

  /** A worker that has died reports, takes and sends nothing more. */
  lemma {:induction false} DeadWorkerStays<S>(dev: Device<S>, st: State<S>, steps: seq<Step>)
    requires st.worker.Died? && GoesOn(dev, st, steps)
    ensures
      var after := Onward(dev, st, steps);
      after.worker.Died? && after.reports == st.reports && after.taken == st.taken && after.wire == st.wire
    decreases |steps|
  {
    if steps != [] {
      DeadWorkerStays(dev, Next(dev, st, steps[0]), steps[1..]);
    }
  }

  /** A schedule going on from a state. */
  predicate GoesOn<S>(dev: Device<S>, st: State<S>, steps: seq<Step>)
    decreases |steps|
  {
    steps == [] || (Enabled(st, steps[0]) && GoesOn(dev, Next(dev, st, steps[0]), steps[1..]))
  }

  function Onward<S>(dev: Device<S>, st: State<S>, steps: seq<Step>): State<S>
    requires GoesOn(dev, st, steps)
    decreases |steps|
  {
    if steps == [] then st else Onward(dev, Next(dev, st, steps[0]), steps[1..])
  }

  // ----- the queue ahead of the sentinel empties -----

  /** The worker's steps a batch still takes. */
  function StepsFor(commands: seq<Command>): nat {
    |commands| + 3
  }

  /** The worker's steps left for the batches not yet taken among the first p entries. */
  function StepsAhead(puts: seq<Entry>, taken: nat, p: nat): nat
    decreases p - taken
  {
    if taken >= p || taken >= |puts| then 0
    else StepsFor(CommandsAt(puts, taken)) + StepsAhead(puts, taken + 1, p)
  }

  function StepsLeft<S>(st: State<S>, p: nat): nat {
    var batch := CommandsAt(st.puts, |st.reports|);
    StepsAhead(st.puts, st.taken, p) +
    match st.worker
    case Waiting => |batch| + 2
    case Running(values) => if |values| <= |batch| then |batch| - |values| + 1 else 0
    case Reporting(_) => 1
    case _ => 0
  }

  /** What the worker does next when nobody else acts. */
  function WorkerStep(worker: Worker): Step
    requires !worker.Stopped? && !worker.Died?
  {
    match worker
    case Idle => Take
    case Waiting => Enter
    case Running(_) => Advance
    case Reporting(_) => Publish
  }

  predicate IsWorkerStep(step: Step) {
    step == Take || step == Enter || step == Advance || step == Publish
  }

  predicate BatchesUpTo(puts: seq<Entry>, p: nat) {
    p <= |puts| && forall i :: 0 <= i < p ==> puts[i].Batch?
  }

  /** While batches ahead of position p are unanswered and the worker is alive, the worker can move, and
      each of its moves shortens what is left. */
  lemma WorkerCanMove<S>(dev: Device<S>, s: S, st: State<S>, p: nat)
    requires Valid(dev, s, st) && !st.worker.Died? && |st.reports| < p && BatchesUpTo(st.puts, p)
    ensures !st.worker.Stopped? && Enabled(st, WorkerStep(st.worker))
    ensures StepsLeft(Next(dev, st, WorkerStep(st.worker)), p) < StepsLeft(st, p)
  {
    MoveShortens(dev, st, p);
  }

  lemma MoveShortens<S>(dev: Device<S>, st: State<S>, p: nat)
    requires Accounted(st) && !st.worker.Died? && |st.reports| < p && BatchesUpTo(st.puts, p)
    requires st.worker.Running? ==> |st.worker.values| < |CommandsAt(st.puts, |st.reports|)|
    ensures !st.worker.Stopped? && Enabled(st, WorkerStep(st.worker))
    ensures StepsLeft(Next(dev, st, WorkerStep(st.worker)), p) < StepsLeft(st, p)
  {
  }

  /** Nobody else's move lengthens it. */
  lemma OthersDoNotDelay<S>(dev: Device<S>, st: State<S>, step: Step, p: nat)
    requires Accounted(st) && Enabled(st, step) && !IsWorkerStep(step) && step != Die && |st.reports| < p <= |st.puts|
    ensures StepsLeft(Next(dev, st, step), p) == StepsLeft(st, p)
  {
    StepsAheadOfMorePuts(st.puts, Next(dev, st, step).puts, st.taken, p);
  }

  lemma {:induction false} StepsAheadOfMorePuts(puts: seq<Entry>, more: seq<Entry>, taken: nat, p: nat)
    requires puts <= more && p <= |puts|
    ensures StepsAhead(more, taken, p) == StepsAhead(puts, taken, p)
    decreases p - taken
  {
    if taken < p {
      StepsAheadOfMorePuts(puts, more, taken + 1, p);
    }
  }

  predicate NobodyDies(steps: seq<Step>) {
    forall i :: 0 <= i < |steps| ==> steps[i] != Die
  }

  /** How often the worker moves in a schedule. */
  function WorkerMoves(steps: seq<Step>): nat {
    if steps == [] then 0 else (if IsWorkerStep(steps[0]) then 1 else 0) + WorkerMoves(steps[1..])
  }

  /** One step of anybody, the worker not dying: what is left has shortened if it was the worker's. */
  lemma StepTowardsAnswers<S>(dev: Device<S>, s: S, st: State<S>, p: nat, step: Step)
    requires Valid(dev, s, st) && !st.worker.Died? && |st.reports| < p && BatchesUpTo(st.puts, p)
    requires Enabled(st, step) && step != Die
    ensures
      var next := Next(dev, st, step);
      && Valid(dev, s, next) && !next.worker.Died? && BatchesUpTo(next.puts, p)
      && StepsLeft(next, p) + (if IsWorkerStep(step) then 1 else 0) <= StepsLeft(st, p)
  {
    NextKeepsValid(dev, s, st, step);
    if IsWorkerStep(step) {
      WorkerCanMove(dev, s, st, p);
      assert step == WorkerStep(st.worker);
    } else {
      OthersDoNotDelay(dev, st, step, p);
    }
  }

  /** Every batch ahead of position p, the sentinel's for one, is answered by the time the worker has made
      StepsLeft moves, in whatever order other threads submit, close and time out in between. */
  lemma {:induction false} AllAheadAreAnswered<S>(dev: Device<S>, s: S, st: State<S>, p: nat, steps: seq<Step>)
    requires Valid(dev, s, st) && !st.worker.Died? && BatchesUpTo(st.puts, p)
    requires GoesOn(dev, st, steps) && NobodyDies(steps)
    requires WorkerMoves(steps) >= StepsLeft(st, p)
    ensures |Onward(dev, st, steps).reports| >= p
    decreases |steps|
  {
    if |st.reports| >= p {
      ReportsStay(dev, st, steps);
    } else {
      WorkerCanMove(dev, s, st, p);
      StepTowardsAnswers(dev, s, st, p, steps[0]);
      AllAheadAreAnswered(dev, s, Next(dev, st, steps[0]), p, steps[1..]);
    }
  }

  lemma {:induction false} ReportsStay<S>(dev: Device<S>, st: State<S>, steps: seq<Step>)
    requires Accounted(st) && GoesOn(dev, st, steps)
    ensures st.reports <= Onward(dev, st, steps).reports
    decreases |steps|
  {
    if steps != [] {
      AccountedNext(dev, st, steps[0]);
      ReportedOnce(dev, st, steps[0]);
      ReportsStay(dev, Next(dev, st, steps[0]), steps[1..]);
    }
  }

}
