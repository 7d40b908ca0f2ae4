/** The schedules of the owner's queue against the owner itself: what Owner.Run does to the instrument and the
    wire, spaced as it is, is what every schedule does (gateway/server.py). */
module OwnerMatch {

  import opened Wrappers
  import opened Errors
  import opened Commands
  import opened Devices
  import opened VirtualTime
  import opened Timing
  import opened PhysicalOwner
  import opened OwnerSchedule

  // ----- one turn of the worker -----

  function Advances(n: nat): seq<Step> {
    seq(n, _ => Advance)
  }

  /** The worker takes an entry, enters execute, sends n commands and publishes what came of it. */
  function TurnSteps(n: nat): seq<Step> {
    [Take, Enter] + Advances(n) + [Publish]
  }

  /** The worker is executing a batch that it found the instrument in state `before` for, after some wire. */
  ghost predicate InBatch<S>(dev: Device<S>, before: S, wire: seq<Sending>, st: State<S>) {
    && st.worker.Running? && AtBatch(st)
    && var batch, values := st.puts[st.taken - 1].commands, st.worker.values;
       && |values| < |batch| && RunCommands(dev, before, batch[..|values|]) == Run(st.world, values, None)
       && st.wire == wire + Sendings(st.taken - 1, batch[..|values|])
  }

  /** The batch has been run, and its outcome is about to be published. */
  function Reported<S>(dev: Device<S>, before: S, wire: seq<Sending>, st: State<S>): State<S>
    requires AtBatch(st)
  {
    var batch := st.puts[st.taken - 1].commands;
    var run := RunCommands(dev, before, batch);
    st.(world := run.world, worker := Reporting(OutcomeOf(run, batch)), locked := false,
        wire := wire + Sendings(st.taken - 1, SentOf(run, batch)))
  }

  /** One command, whether it ends the batch or not. */
  lemma AdvanceInBatch<S>(dev: Device<S>, before: S, wire: seq<Sending>, st: State<S>)
    requires InBatch(dev, before, wire, st)
    ensures Enabled(st, Advance)
    ensures
      var next := Next(dev, st, Advance);
      next == Reported(dev, before, wire, st)
      || (InBatch(dev, before, wire, next) && |next.worker.values| == |st.worker.values| + 1
          && next.puts == st.puts && next.taken == st.taken && AtBatch(next)
          && Reported(dev, before, wire, next) == Reported(dev, before, wire, st))
  {
    var batch, k := st.puts[st.taken - 1].commands, |st.worker.values|;
    var (world, result) := Exchange(dev, st.world, batch[k]);
    OneMoreSending(wire, st.taken - 1, batch, k);
    RunOneMore(dev, before, batch, k, st.world, st.worker.values);
    if result.Failure? {
      RunEndsAtFault(dev, before, batch, k + 1);
      EndsInBatch(dev, before, wire, st, batch, k, Run(world, st.worker.values, Some(result.error)));
    } else if k + 1 == |batch| {
      assert batch[..k + 1] == batch;
      EndsInBatch(dev, before, wire, st, batch, k, Run(world, st.worker.values + [result.value], None));
    } else {
      GoesOnInBatch(dev, before, wire, st, batch, k);
    }
  }

  lemma EndsInBatch<S>(dev: Device<S>, before: S, wire: seq<Sending>, st: State<S>, batch: seq<Command>, k: nat, run: Run<S>)
    requires Enabled(st, Advance) && batch == st.puts[st.taken - 1].commands && k == |st.worker.values|
    requires run == RunCommands(dev, before, batch) && Attempted(run) == k + 1 <= |batch|
    requires st.wire + [Sending(st.taken - 1, batch[k])] == wire + Sendings(st.taken - 1, batch[..k + 1])
    requires
      var (world, result) := Exchange(dev, st.world, batch[k]);
      && run.world == world
      && (result.Failure? ==> run == Run(world, st.worker.values, Some(result.error)))
      && (result.Success? ==> run == Run(world, st.worker.values + [result.value], None) && k + 1 == |batch|)
    ensures Next(dev, st, Advance) == Reported(dev, before, wire, st)
  {
  }

  lemma GoesOnInBatch<S>(dev: Device<S>, before: S, wire: seq<Sending>, st: State<S>, batch: seq<Command>, k: nat)
    requires Enabled(st, Advance) && batch == st.puts[st.taken - 1].commands && k == |st.worker.values| < |batch| - 1
    requires st.wire + [Sending(st.taken - 1, batch[k])] == wire + Sendings(st.taken - 1, batch[..k + 1])
    requires
      var (world, result) := Exchange(dev, st.world, batch[k]);
      result.Success? && RunCommands(dev, before, batch[..k + 1]) == Run(world, st.worker.values + [result.value], None)
    ensures
      var next := Next(dev, st, Advance);
      && InBatch(dev, before, wire, next) && |next.worker.values| == k + 1
      && next.puts == st.puts && next.taken == st.taken && AtBatch(next)
      && Reported(dev, before, wire, next) == Reported(dev, before, wire, st)
  {
    var (world, result) := Exchange(dev, st.world, batch[k]);
    var values, sent := st.worker.values + [result.value], st.wire + [Sending(st.taken - 1, batch[k])];
    assert Next(dev, st, Advance) == st.(world := world, wire := sent, worker := Running(values));
    StillInBatch(dev, before, wire, st, batch, world, values, sent);
  }

  lemma StillInBatch<S>(dev: Device<S>, before: S, wire: seq<Sending>, st: State<S>, batch: seq<Command>,
                        world: S, values: seq<Option<string>>, sent: seq<Sending>)
    requires AtBatch(st) && batch == st.puts[st.taken - 1].commands && |values| < |batch|
    requires RunCommands(dev, before, batch[..|values|]) == Run(world, values, None)
    requires sent == wire + Sendings(st.taken - 1, batch[..|values|])
    ensures
      var next := st.(world := world, wire := sent, worker := Running(values));
      InBatch(dev, before, wire, next) && Reported(dev, before, wire, next) == Reported(dev, before, wire, st)
  {
  }

  lemma FirstStep<S>(dev: Device<S>, st: State<S>, step: Step, rest: seq<Step>)
    requires Enabled(st, step) && GoesOn(dev, Next(dev, st, step), rest)
    ensures GoesOn(dev, st, [step] + rest)
    ensures Onward(dev, st, [step] + rest) == Onward(dev, Next(dev, st, step), rest)
  {
    assert ([step] + rest)[1..] == rest;
  }

  lemma AdvancesNext(n: nat)
    ensures Advances(0) == [] && Advances(n + 1) == [Advance] + Advances(n)
  {
  }

  /** The commands of a batch from somewhere in it to its end or its first fault. */
  lemma {:induction false} AdvancesToReport<S>(dev: Device<S>, before: S, wire: seq<Sending>, st: State<S>, goal: State<S>,
                                               left: nat) returns (n: nat)
    requires InBatch(dev, before, wire, st) && goal == Reported(dev, before, wire, st)
    requires left == |st.puts[st.taken - 1].commands| - |st.worker.values|
    ensures GoesOn(dev, st, Advances(n)) && Onward(dev, st, Advances(n)) == goal
    decreases left
  {
    AdvanceInBatch(dev, before, wire, st);
    var next := Next(dev, st, Advance);
    var more := 0;
    if next == goal {
      AdvancesNext(0);
    } else {
      more := AdvancesToReport(dev, before, wire, next, goal, left - 1);
    }
    n := more + 1;
    AdvancesNext(more);
    FirstStep(dev, st, Advance, Advances(more));
  }

  lemma {:induction false} ThenStep<S>(dev: Device<S>, st: State<S>, steps: seq<Step>, last: Step)
    requires GoesOn(dev, st, steps) && Enabled(Onward(dev, st, steps), last)
    ensures GoesOn(dev, st, steps + [last])
    ensures Onward(dev, st, steps + [last]) == Next(dev, Onward(dev, st, steps), last)
    decreases |steps|
  {
    if steps == [] {
      FirstStep(dev, st, last, []);
      assert [] + [last] == [last] + [];
    } else {
      ThenStep(dev, Next(dev, st, steps[0]), steps[1..], last);
      FirstStep(dev, st, steps[0], steps[1..] + [last]);
      assert [steps[0]] + (steps[1..] + [last]) == steps + [last];
    }
  }

  /** An idle worker serves the next batch by taking it, entering execute, sending its commands and publishing
      its outcome; nothing else changes. */
  lemma TurnServesABatch<S>(dev: Device<S>, st: State<S>) returns (n: nat)
    requires Accounted(st) && st.worker.Idle? && !st.executorClosed
    requires st.taken < |st.puts| && st.puts[st.taken].Batch?
    ensures GoesOn(dev, st, TurnSteps(n))
    ensures
      var batch := st.puts[st.taken].commands;
      var run := RunCommands(dev, st.world, batch);
      Onward(dev, st, TurnSteps(n))
      == st.(taken := st.taken + 1, world := run.world, wire := st.wire + Sendings(st.taken, SentOf(run, batch)),
             reports := st.reports + [Answered(OutcomeOf(run, batch))])
  {
    var taken := Next(dev, st, Take);
    var entered := Next(dev, taken, Enter);
    assert st.puts[st.taken].commands[..0] == [];
    assert st.wire + Sendings(st.taken, []) == st.wire;
    n := AdvancesToReport(dev, st.world, st.wire, entered, Reported(dev, st.world, st.wire, entered),
                          |st.puts[st.taken].commands|);
    ThenStep(dev, entered, Advances(n), Publish);
    FirstStep(dev, taken, Enter, Advances(n) + [Publish]);
    FirstStep(dev, st, Take, [Enter] + (Advances(n) + [Publish]));
    assert TurnSteps(n) == [Take] + ([Enter] + (Advances(n) + [Publish]));
  }

  // ----- every schedule -----

  function SentCommands(wire: seq<Sending>): seq<Command> {
    seq(|wire|, i requires 0 <= i < |wire| => wire[i].command)
  }

  /** The first n batches of a queue. */
  function FirstBatches(puts: seq<Entry>, n: nat): seq<seq<Command>> {
    if n == 0 then [] else FirstBatches(puts, n - 1) + [CommandsAt(puts, n - 1)]
  }

  /** The outcomes that reports publish. */
  function OutcomesOf(reports: seq<Report>): seq<Outcome>
    requires NoneTurnedAway(reports)
  {
    seq(|reports|, i requires 0 <= i < |reports| => reports[i].outcome)
  }

  /** Every batch was answered, and by an executor that was not closed. */
  predicate NoneTurnedAway(reports: seq<Report>) {
    forall i :: 0 <= i < |reports| ==> reports[i].Answered? && reports[i].outcome != Raised(EXECUTOR_CLOSED)
  }

  lemma TruthfulBefore<S>(dev: Device<S>, s: S, puts: seq<Entry>, reports: seq<Report>, n: nat)
    requires Truthful(dev, s, puts, reports) && n <= |reports|
    ensures Truthful(dev, s, puts, reports[..n])
  {
    assert forall j :: 0 <= j < n ==> reports[..n][..j] == reports[..j] && reports[..n][j] == reports[j];
  }

  lemma LinesOfMore(wire: seq<Sending>, j: nat, extent: seq<Command>)
    ensures LinesOf(SentCommands(wire + Sendings(j, extent))) == LinesOf(SentCommands(wire)) + LinesOf(extent)
  {
  }

  /** The scene that a replay of reports ends in, and the outcomes they publish. */
  ghost function ReplayedScene<S>(dev: Device<S>, s: S, puts: seq<Entry>, reports: seq<Report>): (Scene<S>, seq<Outcome>)
    requires NoneTurnedAway(reports)
  {
    var (world, wire) := Replay(dev, s, puts, reports);
    (Scene(world, LinesOf(SentCommands(wire))), OutcomesOf(reports))
  }

  lemma OneMoreReplayed<S>(dev: Device<S>, s: S, puts: seq<Entry>, reports: seq<Report>)
    requires reports != [] && NoneTurnedAway(reports) && Truthful(dev, s, puts, reports)
    ensures
      var n := |reports| - 1;
      var (scene, outcomes) := ReplayedScene(dev, s, puts, reports[..n]);
      var (after, outcome) := AfterBatch(dev, false, scene, CommandsAt(puts, n));
      ReplayedScene(dev, s, puts, reports) == (after, outcomes + [outcome])
  {
    var n := |reports| - 1;
    var (before, wire) := Replay(dev, s, puts, reports[..n]);
    var batch := CommandsAt(puts, n);
    ReplayOfLast(dev, s, puts, reports);
    LinesOfMore(wire, n, SentOf(RunCommands(dev, before, batch), batch));
    OutcomesOfLast(reports);
  }

  lemma OutcomesOfLast(reports: seq<Report>)
    requires reports != [] && NoneTurnedAway(reports)
    ensures OutcomesOf(reports) == OutcomesOf(reports[..|reports| - 1]) + [reports[|reports| - 1].outcome]
  {
  }

  lemma ReplayOfLast<S>(dev: Device<S>, s: S, puts: seq<Entry>, reports: seq<Report>)
    requires reports != [] && NoneTurnedAway(reports) && Truthful(dev, s, puts, reports)
    ensures
      var n := |reports| - 1;
      var (before, wire) := Replay(dev, s, puts, reports[..n]);
      var batch := CommandsAt(puts, n);
      var run := RunCommands(dev, before, batch);
      && Replay(dev, s, puts, reports) == (run.world, wire + Sendings(n, SentOf(run, batch)))
      && reports[n].outcome == OutcomeOf(run, batch)
  {
    var n := |reports| - 1;
    AttemptedIsEnough(dev, Replay(dev, s, puts, reports[..n]).0, CommandsAt(puts, n));
    assert reports[n].Answered?;
  }

  lemma {:induction false} ReplayIsAfterAll<S>(dev: Device<S>, s: S, puts: seq<Entry>, reports: seq<Report>)
    requires NoneTurnedAway(reports) && Truthful(dev, s, puts, reports)
    ensures ReplayedScene(dev, s, puts, reports) == AfterAll(dev, Scene(s, []), FirstBatches(puts, |reports|))
  {
    if reports == [] {
      assert SentCommands([]) == [] && LinesOf([]) == [] && OutcomesOf([]) == [];
      var none: seq<string> := [];
      assert none + none == none;
      assert AfterAll(dev, Scene(s, none), []) == (Scene(s, none), []);
    } else {
      var n := |reports| - 1;
      TruthfulBefore(dev, s, puts, reports, n);
      ReplayIsAfterAll(dev, s, puts, reports[..n]);
      OneMoreReplayed(dev, s, puts, reports);
      AfterOneMore(dev, Scene(s, []), FirstBatches(puts, n), CommandsAt(puts, n));
    }
  }

  /** Under every schedule, whenever the worker is idle and has turned no batch away, the instrument, the lines
      on the wire and the outcomes published are those that Owner.Run leaves for the same batches; its spaced
      trace is therefore that of every schedule. */
  lemma SchedulesMatchOwner<S>(dev: Device<S>, s: S, steps: seq<Step>)
    requires IsRun(dev, s, steps)
    requires After(dev, s, steps).worker.Idle? && NoneTurnedAway(After(dev, s, steps).reports)
    ensures
      var st := After(dev, s, steps);
      (Scene(st.world, LinesOf(SentCommands(st.wire))), OutcomesOf(st.reports))
      == AfterAll(dev, Scene(s, []), FirstBatches(st.puts, st.taken))
  {
    EveryScheduleIsValid(dev, s, steps);
    var st := After(dev, s, steps);
    ReplayIsAfterAll(dev, s, st.puts, st.reports);
  }
}
