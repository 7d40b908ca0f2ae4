/** Whole runs of the driver over the gateway, against the same runs over a direct connection. */
module Sessions {

  import opened Wrappers
  import opened Errors
  import opened Commands
  import opened Devices
  import opened Compilation
  import opened Settlement
  import opened DriverModel
  import DR = DriverRuns
  import T = Transparency
  import P = Protocol
  import PhysicalOwner

  /** What an open gateway session refers to: the instrument behind the gateway, and the next request id. */
  datatype Remote<S> = Remote(world: S, nextId: int)

  /** A session as an executor. What the waiting thread of the server gets to see of the request with an id is
      up to the environment. */
  function Over<S>(dev: Device<S>, link: T.Link, sights: int -> seq<PhysicalOwner.Progress>): Executor<Remote<S>> {
    (r: Remote<S>, commands: seq<Command>) =>
      var (world, outcome) := T.ThroughGateway(dev, link, r.nextId, sights(r.nextId), r.world, commands);
      (Remote(world, if P.SerializeAll(commands).Success? then r.nextId + 1 else r.nextId), outcome)
  }

  /** The driver as it would be over a direct connection. */
  function Seen<S>(d: State<Remote<S>>): State<S> {
    State(d.holder, d.depth, d.globally, d.overrides, d.collecting, d.pending, d.authors, d.handles, d.cells, d.world.world)
  }

  /** The gateway can carry a batch: it keeps within the limits, and an exception it raises is portable. */
  predicate Carries<S>(dev: Device<S>, link: T.Link, r: Remote<S>, commands: seq<Command>) {
    && T.Fits(dev, link, r.nextId, r.world, commands) && T.SmallBeats(link.size, r.nextId)
    && var outcome := Direct(dev)(r.world, commands).1; outcome.Raised? ==> P.Portable(outcome.error)
  }

  lemma CarriedBatch<S>(dev: Device<S>, link: T.Link, sights: int -> seq<PhysicalOwner.Progress>, r: Remote<S>, commands: seq<Command>)
    requires AllValid(commands) && Carries(dev, link, r, commands)
    ensures
      var (after, outcome) := Over(dev, link, sights)(r, commands);
      (after.world, outcome) == Direct(dev)(r.world, commands)
  {
    T.GatewayIsTransparent(dev, link, r.nextId, sights(r.nextId), r.world, commands);
  }

  /** Executing operations whose texts are accepted, if the gateway can carry them. */
  predicate CanExecute<S>(dev: Device<S>, link: T.Link, d: State<Remote<S>>, ops: seq<Op>) {
    FirstTextError(Flatten(ops)).None? ==> Carries(dev, link, d.world, Flatten(ops))
  }

  /** The same exception, and the same driver but for what its executor refers to. */
  ghost predicate Alike<S>(remote: (State<Remote<S>>, Option<Error>), direct: (State<S>, Option<Error>)) {
    Seen(remote.0) == direct.0 && remote.1 == direct.1
  }

  lemma ExecutingLooksAlike<S>(dev: Device<S>, link: T.Link, sights: int -> seq<PhysicalOwner.Progress>,
                               d: State<Remote<S>>, ops: seq<Op>)
    requires CanExecute(dev, link, d, ops)
    ensures Alike(ExecutePending(Over(dev, link, sights), d, ops), ExecutePending(Direct(dev), Seen(d), ops))
  {
    if FirstTextError(Flatten(ops)).None? {
      ValidMeansNoTextError(Flatten(ops));
      CarriedBatch(dev, link, sights, d.world, Flatten(ops));
    }
  }

  /** The gateway can carry what a call executes, if it executes anything. */
  predicate CanCarry<S>(dev: Device<S>, link: T.Link, d: State<Remote<S>>, ev: Event) {
    match ev.call
    case WriteCall(command, verification, why) =>
      !d.collecting ==> CanExecute(dev, link, d, [WriteOp(command, SelectedCheck(d, verification, why))])
    case ReadCall(texts, parser) => !d.collecting ==> CanExecute(dev, link, d, [ReadOp(texts, parser, |d.cells|)])
    case End(execute) => execute && d.pending != [] ==> CanExecute(dev, link, d, d.pending)
    case RawCall(commands) =>
      !d.collecting && !ShouldVerify(d) ==> AllValid(commands) && Carries(dev, link, d.world, commands)
    case _ => true
  }

  // ----- call by call, for any two executors -----

  lemma WritesAlike<S>(act: Executor<Remote<S>>, direct: Executor<S>, d: State<Remote<S>>, ev: Event, op: Op)
    requires ev.call.WriteCall? && op == WriteOp(ev.call.command, SelectedCheck(d, ev.call.verification, ev.call.why))
    requires !d.collecting ==> Alike(ExecutePending(act, d, [op]), ExecutePending(direct, Seen(d), [op]))
    requires Enabled(d, ev)
    ensures Enabled(Seen(d), ev) && Alike(Next(act, d, ev), Next(direct, Seen(d), ev))
  {
    assert op == WriteOp(ev.call.command, SelectedCheck(Seen(d), ev.call.verification, ev.call.why));
    if !d.collecting {
      assert Next(act, d, ev) == ExecutePending(act, d, [op]);
      assert Next(direct, Seen(d), ev) == ExecutePending(direct, Seen(d), [op]);
    }
  }

  lemma ReadsAlike<S>(act: Executor<Remote<S>>, direct: Executor<S>, d: State<Remote<S>>, ev: Event, op: Op, d1: State<Remote<S>>)
    requires ev.call.ReadCall? && op == ReadOp(ev.call.texts, ev.call.parser, |d.cells|)
    requires d1 == d.(cells := d.cells + [PENDING])
    requires !d.collecting ==> Alike(ExecutePending(act, d1, [op]), ExecutePending(direct, Seen(d1), [op]))
    requires Enabled(d, ev)
    ensures Enabled(Seen(d), ev) && Alike(Next(act, d, ev), Next(direct, Seen(d), ev))
  {
  }

  lemma EndsAlike<S>(act: Executor<Remote<S>>, direct: Executor<S>, d: State<Remote<S>>, ev: Event, cleared: State<Remote<S>>)
    requires ev.call.End? && cleared == d.(collecting := false, pending := [], authors := [], handles := [])
    requires ev.call.execute && d.pending != [] ==>
      Alike(ExecutePending(act, cleared, d.pending), ExecutePending(direct, Seen(cleared), d.pending))
    requires Enabled(d, ev)
    ensures Enabled(Seen(d), ev) && Alike(Next(act, d, ev), Next(direct, Seen(d), ev))
  {
  }

  lemma RawAlike<S>(act: Executor<Remote<S>>, direct: Executor<S>, d: State<Remote<S>>, ev: Event)
    requires ev.call.RawCall?
    requires !d.collecting && !ShouldVerify(d) ==>
      && act(d.world, ev.call.commands).0.world == direct(d.world.world, ev.call.commands).0
      && act(d.world, ev.call.commands).1 == direct(d.world.world, ev.call.commands).1
    requires Enabled(d, ev)
    ensures Enabled(Seen(d), ev) && Alike(Next(act, d, ev), Next(direct, Seen(d), ev))
  {
  }

  lemma ScopesAlike<S>(act: Executor<Remote<S>>, direct: Executor<S>, d: State<Remote<S>>, ev: Event)
    requires ev.call.Begin? || ev.call.Force? || ev.call.Unforce? || ev.call.SetGlobally?
    requires Enabled(d, ev)
    ensures Enabled(Seen(d), ev) && Alike(Next(act, d, ev), Next(direct, Seen(d), ev))
  {
  }

  /** A call of any thread has the same effect and raises the same exception over the gateway as directly. */
  lemma CallLooksAlike<S>(dev: Device<S>, link: T.Link, sights: int -> seq<PhysicalOwner.Progress>,
                          d: State<Remote<S>>, ev: Event)
    requires Enabled(d, ev) && CanCarry(dev, link, d, ev)
    ensures Enabled(Seen(d), ev)
    ensures Alike(Next(Over(dev, link, sights), d, ev), Next(Direct(dev), Seen(d), ev))
  {
    var act, direct := Over(dev, link, sights), Direct(dev);
    match ev.call
    case WriteCall(command, verification, why) =>
      var op := WriteOp(command, SelectedCheck(d, verification, why));
      if !d.collecting {
        ExecutingLooksAlike(dev, link, sights, d, [op]);
      }
      WritesAlike(act, direct, d, ev, op);
    case ReadCall(texts, parser) =>
      var op, d1 := ReadOp(texts, parser, |d.cells|), d.(cells := d.cells + [PENDING]);
      if !d.collecting {
        ExecutingLooksAlike(dev, link, sights, d1, [op]);
      }
      ReadsAlike(act, direct, d, ev, op, d1);
    case End(execute) =>
      var cleared := d.(collecting := false, pending := [], authors := [], handles := []);
      if execute && d.pending != [] {
        ExecutingLooksAlike(dev, link, sights, cleared, d.pending);
      }
      EndsAlike(act, direct, d, ev, cleared);
    case RawCall(commands) =>
      if !d.collecting && !ShouldVerify(d) {
        CarriedBatch(dev, link, sights, d.world, commands);
      }
      RawAlike(act, direct, d, ev);
    case _ => ScopesAlike(act, direct, d, ev);
  }

  /** A run over the gateway, every batch of which the gateway can carry. */
  ghost predicate IsCarriedRun<S>(dev: Device<S>, link: T.Link, sights: int -> seq<PhysicalOwner.Progress>,
                                  start: State<Remote<S>>, events: seq<Event>)
  {
    && DR.IsRun(Over(dev, link, sights), start, events)
    && (events != [] ==>
          && IsCarriedRun(dev, link, sights, start, events[..|events| - 1])
          && CanCarry(dev, link, DR.After(Over(dev, link, sights), start, events[..|events| - 1]), events[|events| - 1]))
  }

  /** Over whole sessions, with any number of threads, batches and verification scopes: the same calls are
      possible over a direct connection, and lead to the same Deferreds, locks, scopes and instrument. */
  lemma {:induction false} SessionIsTransparent<S>(dev: Device<S>, link: T.Link, sights: int -> seq<PhysicalOwner.Progress>,
                                                   start: State<Remote<S>>, events: seq<Event>)
    requires IsCarriedRun(dev, link, sights, start, events)
    ensures DR.IsRun(Direct(dev), Seen(start), events)
    ensures Seen(DR.After(Over(dev, link, sights), start, events)) == DR.After(Direct(dev), Seen(start), events)
  {
    if events != [] {
      var earlier, ev := events[..|events| - 1], events[|events| - 1];
      SessionIsTransparent(dev, link, sights, start, earlier);
      CallLooksAlike(dev, link, sights, DR.After(Over(dev, link, sights), start, earlier), ev);
    }
  }
}
