/** What the thread that submitted a batch sees of it while it waits (gateway/server.py, _PhysicalOwner). */
module Watching {

  import opened Wrappers
  import opened Commands
  import opened Devices
  import opened PhysicalOwner
  import opened OwnerSchedule

  /** work.state of the batch at a position of the queue: the worker sets it when it takes the batch. */
  function Sight<S>(st: State<S>, job: nat): Progress {
    if st.taken <= job then Queued else Executing
  }

  /** The waiting thread looks at its batch after times[0], times[1], ... steps of a run. */
  ghost predicate Watches<S>(dev: Device<S>, s: S, steps: seq<Step>, job: nat, times: seq<nat>, sights: seq<Progress>)
    requires IsRun(dev, s, steps)
  {
    && |sights| == |times|
    && (forall i :: 0 <= i < |times| ==> SeesAt(dev, s, steps, job, times[i], sights[i]))
    && (forall i, j :: 0 <= i < j < |times| ==> times[i] <= times[j])
  }

  ghost predicate SeesAt<S>(dev: Device<S>, s: S, steps: seq<Step>, job: nat, time: nat, sight: Progress)
    requires IsRun(dev, s, steps)
  {
    time <= |steps| && (PrefixIsRun(dev, s, steps, time); sight == Sight(After(dev, s, steps[..time]), job))
  }

  /** The sights are those of some thread waiting for its batch in this run of the owner. */
  ghost predicate Watched<S>(dev: Device<S>, s: S, steps: seq<Step>, sights: seq<Progress>)
    requires IsRun(dev, s, steps)
  {
    exists job: nat, times: seq<nat> :: Watches(dev, s, steps, job, times, sights)
  }

  lemma {:induction false} PrefixIsRun<S>(dev: Device<S>, s: S, steps: seq<Step>, k: nat)
    requires IsRun(dev, s, steps) && k <= |steps|
    ensures IsRun(dev, s, steps[..k])
    decreases |steps|
  {
    if k == |steps| {
      assert steps[..k] == steps;
    } else {
      assert steps[..|steps| - 1][..k] == steps[..k];
      PrefixIsRun(dev, s, steps[..|steps| - 1], k);
    }
  }

  /** How often the worker has taken an entry off the queue. */
  function Takes(steps: seq<Step>): nat {
    if steps == [] then 0
    else Takes(steps[..|steps| - 1]) + if steps[|steps| - 1].Take? then 1 else 0
  }

  /** Over every run, a batch is seen executing exactly when the worker has taken more entries than were queued
      ahead of it. */
  lemma {:induction false} SeenExecutingOnceTaken<S>(dev: Device<S>, s: S, steps: seq<Step>, job: nat)
    requires IsRun(dev, s, steps)
    ensures Sight(After(dev, s, steps), job).Executing? <==> job < Takes(steps)
  {
    TakenAreCounted(dev, s, steps);
  }

  lemma {:induction false} TakenAreCounted<S>(dev: Device<S>, s: S, steps: seq<Step>)
    requires IsRun(dev, s, steps)
    ensures After(dev, s, steps).taken == Takes(steps)
  {
    if steps != [] {
      TakenAreCounted(dev, s, steps[..|steps| - 1]);
    }
  }

  /** The worker never gives an entry back. */
  lemma TakenGrows<S>(dev: Device<S>, s: S, steps: seq<Step>, k: nat)
    requires IsRun(dev, s, steps) && k <= |steps| && IsRun(dev, s, steps[..k])
    ensures After(dev, s, steps[..k]).taken <= After(dev, s, steps).taken
  {
    TakenAreCounted(dev, s, steps);
    TakenAreCounted(dev, s, steps[..k]);
    TakesGrow(steps, k);
  }

  lemma {:induction false} TakesGrow(steps: seq<Step>, k: nat)
    requires k <= |steps|
    ensures Takes(steps[..k]) <= Takes(steps)
  {
    if k == |steps| {
      assert steps[..k] == steps;
    } else {
      assert steps[..|steps| - 1][..k] == steps[..k];
      TakesGrow(steps[..|steps| - 1], k);
    }
  }

  /** Over every run of the owner, whoever else submits, closes or dies: a batch that was seen executing is
      never seen queued again. */
  lemma SightsMoveForward<S>(dev: Device<S>, s: S, steps: seq<Step>, sights: seq<Progress>)
    requires IsRun(dev, s, steps) && Watched(dev, s, steps, sights)
    ensures Progressing(sights)
  {
    var job: nat, times: seq<nat> :| Watches(dev, s, steps, job, times, sights);
    forall i, j | 0 <= i < j < |sights| && sights[i].Executing?
      ensures sights[j].Executing?
    {
      assert SeesAt(dev, s, steps, job, times[i], sights[i]) && SeesAt(dev, s, steps, job, times[j], sights[j]);
      PrefixIsRun(dev, s, steps, times[i]);
      PrefixIsRun(dev, s, steps, times[j]);
      assert steps[..times[j]][..times[i]] == steps[..times[i]];
      TakenGrows(dev, s, steps[..times[j]], times[i]);
    }
  }
}
