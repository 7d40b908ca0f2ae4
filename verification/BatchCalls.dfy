/** The same calls inside a batch and outside one, on the driver itself. */
module BatchCalls {

  import opened Wrappers
  import opened Errors
  import opened Commands
  import opened Devices
  import opened Compilation
  import opened Settlement
  import opened Attribution
  import opened BatchMeaning
  import opened DriverModel

  /** How many of the verification scopes that calls enter are still open after them. */
  function OpenScopes(calls: seq<Call>): int {
    if calls == [] then 0
    else
      var last := calls[|calls| - 1];
      OpenScopes(calls[..|calls| - 1]) + (if last.Force? then 1 else if last.Unforce? then -1 else 0)
  }

  /** Reads, writes and verification scopes, the latter left only after they were entered. */
  predicate Nested(calls: seq<Call>) {
    calls == [] ||
    var last := calls[|calls| - 1];
    && Nested(calls[..|calls| - 1])
    && !last.Begin? && !last.End? && !last.RawCall?
    && (last.Unforce? ==> OpenScopes(calls[..|calls| - 1]) > 0)
  }

  /** One such call, made by a thread that holds the lock or finds it free. */
  function Perform<S>(act: Executor<S>, d: State<S>, t: Thread, call: Call): (State<S>, Option<Error>) {
    match call
    case WriteCall(command, verification, why) => DoWrite(act, d, t, command, verification, why)
    case ReadCall(texts, parser) => DoRead(act, d, t, texts, parser)
    case _ => (Scoped(d, t, call), None)
  }

  /** What a call does to the verification scopes and the lock. */
  function Scoped<S>(d: State<S>, t: Thread, call: Call): State<S> {
    match call
    case Force(enabled) => BeginVerify(d, t, enabled)
    case Unforce => if d.overrides != [] then EndVerify(d) else d
    case SetGlobally(enabled) => d.(globally := enabled)
    case _ => d
  }

  /** It is the driver's own step. */
  lemma PerformIsNext<S>(act: Executor<S>, d: State<S>, t: Thread, call: Call)
    requires Enabled(d, Event(t, call)) && !call.Begin? && !call.End? && !call.RawCall?
    ensures Perform(act, d, t, call) == Next(act, d, Event(t, call))
  {
  }

  /** The calls one after the other, up to the first that raises. */
  function InTurn<S>(act: Executor<S>, d: State<S>, t: Thread, calls: seq<Call>): (State<S>, Option<Error>) {
    if calls == [] then (d, None)
    else
      var (before, raised) := InTurn(act, d, t, calls[..|calls| - 1]);
      if raised.Some? then (before, raised) else Perform(act, before, t, calls[|calls| - 1])
  }

  /** The same calls in a batch of their own. */
  function InOneBatch<S>(act: Executor<S>, d: State<S>, t: Thread, calls: seq<Call>): (State<S>, Option<Error>) {
    var (inside, raised) := InTurn(act, BeginBatch(d, t).0, t, calls);
    if raised.Some? then (EndBatch(act, inside, false).0, raised) else EndBatch(act, inside, true)
  }

  // ----- what the calls leave of locks and scopes -----

  function Scopes<S>(d: State<S>, t: Thread, calls: seq<Call>): State<S> {
    if calls == [] then d else Scoped(Scopes(d, t, calls[..|calls| - 1]), t, calls[|calls| - 1])
  }

  /** The driver in the state that the batch was opened in, seen from inside the batch. */
  function Opened<S>(d: State<S>, t: Thread): State<S> {
    Acquire(d, t).(collecting := true, pending := [], authors := [], handles := [])
  }

  /** The thread has the lock, at least as often as it has entered scopes, or finds it free. */
  predicate Holds<S>(d: State<S>, t: Thread, scopes: int) {
    && (d.holder.None? <==> d.depth == 0) && (d.holder.Some? ==> d.holder.value == t)
    && 0 <= scopes <= d.depth && scopes <= |d.overrides|
  }

  lemma ScopedInBatch<S>(d: State<S>, t: Thread, call: Call, scopes: int)
    requires Holds(d, t, scopes) && !call.Begin? && !call.End? && !call.RawCall?
    requires call.Unforce? ==> scopes > 0
    ensures Holds(Scoped(d, t, call), t, scopes + if call.Force? then 1 else if call.Unforce? then -1 else 0)
    ensures Scoped(Opened(d, t), t, call) == Opened(Scoped(d, t, call), t)
  {
  }

  /** Inside the batch the scopes are those outside, with the lock held once more. */
  lemma {:induction false} ScopesInBatch<S>(d: State<S>, t: Thread, calls: seq<Call>)
    requires Holds(d, t, 0) && Nested(calls)
    ensures Holds(Scopes(d, t, calls), t, OpenScopes(calls))
    ensures Scopes(Opened(d, t), t, calls) == Opened(Scopes(d, t, calls), t)
  {
    if calls != [] {
      var prefix := calls[..|calls| - 1];
      ScopesInBatch(d, t, prefix);
      ScopedInBatch(Scopes(d, t, prefix), t, calls[|calls| - 1], OpenScopes(prefix));
    }
  }

  lemma {:induction false} ScopesKeepTheRest<S>(d: State<S>, t: Thread, calls: seq<Call>)
    ensures
      var r := Scopes(d, t, calls);
      r == d.(holder := r.holder, depth := r.depth, globally := r.globally, overrides := r.overrides)
  {
    if calls != [] {
      ScopesKeepTheRest(d, t, calls[..|calls| - 1]);
    }
  }

  // ----- what the calls queue -----

  function Made(call: Call): nat {
    if call.ReadCall? then 1 else 0
  }

  function ReadsIn(calls: seq<Call>): nat {
    if calls == [] then 0 else ReadsIn(calls[..|calls| - 1]) + Made(calls[|calls| - 1])
  }

  /** The operation a call stands for, if it is a read or a write. */
  function OpOfCall<S>(d: State<S>, call: Call, slot: nat): Option<Op> {
    if call.WriteCall? || call.ReadCall? then Some(OpOf(d, call, slot)) else None
  }

  function WithOp(ops: seq<Op>, own: Option<Op>): seq<Op> {
    if own.Some? then ops + [own.value] else ops
  }

  /** The operations the calls stand for, each with the verification in force at its call, and with the
      handles their reads get from a state on. */
  function OpsOf<S>(d: State<S>, t: Thread, calls: seq<Call>): seq<Op> {
    if calls == [] then []
    else
      var prefix := calls[..|calls| - 1];
      WithOp(OpsOf(d, t, prefix), OpOfCall(Scopes(d, t, prefix), calls[|calls| - 1], |d.cells| + ReadsIn(prefix)))
  }

  /** n Deferreds that wait, after the others. */
  function Padded(cells: seq<Cell>, n: nat): (r: seq<Cell>)
    ensures |r| == |cells| + n
  {
    if n == 0 then cells else Padded(cells, n - 1) + [PENDING]
  }

  lemma {:induction false} PaddedTwice(cells: seq<Cell>, m: nat, n: nat)
    ensures Padded(Padded(cells, m), n) == Padded(cells, m + n)
  {
    if n > 0 {
      PaddedTwice(cells, m, n - 1);
    }
  }

  lemma {:induction false} PaddedAppend(a: seq<Cell>, b: seq<Cell>, n: nat)
    ensures Padded(a + b, n) == a + Padded(b, n)
  {
    if n > 0 {
      PaddedAppend(a, b, n - 1);
      assert a + Padded(b, n - 1) + [PENDING] == a + (Padded(b, n - 1) + [PENDING]);
    }
  }

  /** A batch that has collected these operations, and n Deferreds with them. */
  ghost predicate Collected<S>(d: State<S>, after: State<S>, ops: seq<Op>, n: nat) {
    after == d.(pending := ops, authors := after.authors, handles := after.handles, cells := Padded(d.cells, n))
  }

  lemma CallIsQueued<S>(act: Executor<S>, d: State<S>, t: Thread, before: State<S>, ops: seq<Op>, n: nat, call: Call)
    requires d.collecting && Collected(d, before, ops, n)
    ensures
      var (after, raised) := Perform(act, before, t, call);
      && raised.None?
      && Collected(Scoped(d, t, call), after, WithOp(ops, OpOfCall(d, call, |d.cells| + n)), n + Made(call))
  {
  }

  lemma {:induction false} CallsAreQueued<S>(act: Executor<S>, d: State<S>, t: Thread, calls: seq<Call>)
    requires d.collecting && d.pending == []
    ensures
      var (after, raised) := InTurn(act, d, t, calls);
      raised.None? && Collected(Scopes(d, t, calls), after, OpsOf(d, t, calls), ReadsIn(calls))
  {
    if calls != [] {
      var prefix := calls[..|calls| - 1];
      CallsAreQueued(act, d, t, prefix);
      ScopesKeepTheRest(d, t, prefix);
      CallIsQueued(act, Scopes(d, t, prefix), t, InTurn(act, d, t, prefix).0, OpsOf(d, t, prefix), ReadsIn(prefix),
                   calls[|calls| - 1]);
    }
  }

  // ----- Deferreds beside the ones concerned -----

  lemma PutBeside(cells: seq<Cell>, more: seq<Cell>)
    ensures forall slot: nat :: slot < |cells| ==> Get(cells + more, slot) == Get(cells, slot)
    ensures forall slot: nat, cell :: slot < |cells| ==> Put(cells + more, slot, cell) == Put(cells, slot, cell) + more
  {
  }

  lemma {:induction false} SettleReadsBeside(ops: seq<Op>, values: seq<Option<string>>, cells: seq<Cell>, more: seq<Cell>)
    requires SlotsBelow(ops, |cells|)
    ensures SettleReads(ops, values, cells + more) == SettleReads(ops, values, cells) + more
  {
    if ops != [] {
      SettleReadsBeside(ops[..|ops| - 1], values, cells, more);
      PutBeside(SettleReads(ops[..|ops| - 1], values, cells), more);
    }
  }

  lemma {:induction false} RejectReadsBeside(ops: seq<Op>, e: Error, cells: seq<Cell>, more: seq<Cell>)
    requires SlotsBelow(ops, |cells|)
    ensures RejectReads(ops, e, cells + more) == RejectReads(ops, e, cells) + more
  {
    if ops != [] {
      RejectReadsBeside(ops[..|ops| - 1], e, cells, more);
      PutBeside(RejectReads(ops[..|ops| - 1], e, cells), more);
    }
  }

  /** Executing operations does not depend on Deferreds that are not theirs, and does not touch them. */
  lemma FinishBeside(ops: seq<Op>, outcome: Outcome, cells: seq<Cell>, more: seq<Cell>)
    requires SlotsBelow(ops, |cells|)
    ensures
      var finished := Finish(ops, outcome, cells);
      Finish(ops, outcome, cells + more) == Finished(finished.cells + more, finished.raised)
  {
    match outcome
    case Values(values) => SettleReadsBeside(ops, values, cells, more);
    case Raised(e) =>
      FailureRejects(ops, e, cells);
      FailureRejects(ops, e, cells + more);
      RejectReadsBeside(ops, Finish(ops, outcome, cells).raised.value, cells, more);
  }

  lemma ExecutingBeside<S>(act: Executor<S>, d: State<S>, op: Op, rest: nat)
    requires op.ReadOp? ==> op.slot < |d.cells|
    ensures
      var (after, raised) := ExecutePending(act, d, [op]);
      ExecutePending(act, d.(cells := Padded(d.cells, rest)), [op]) == (after.(cells := Padded(after.cells, rest)), raised)
  {
    PaddingIsAppended(d.cells, rest);
    PaddingIsAppended(ExecutePending(act, d, [op]).0.cells, rest);
    FinishBeside([op], act(d.world, Flatten([op])).1, d.cells, Padded([], rest));
  }

  lemma PaddingIsAppended(cells: seq<Cell>, n: nat)
    ensures Padded(cells, n) == cells + Padded([], n)
  {
    PaddedAppend(cells, [], n);
    assert cells + [] == cells;
  }

  // ----- the driver's calls, operation by operation -----

  /** The operations executed one at a time, up to the first that raises. */
  function Each<S>(act: Executor<S>, d: State<S>, ops: seq<Op>): (State<S>, Option<Error>) {
    if ops == [] then (d, None)
    else
      var (before, raised) := Each(act, d, ops[..|ops| - 1]);
      if raised.Some? then (before, raised) else ExecutePending(act, before, [ops[|ops| - 1]])
  }

  /** The driver after some calls, d being what they left of locks and scopes, against the operations executed
      over the Deferreds of all calls from a state `start`: alike but for locks and scopes and for the
      Deferreds of the calls that are still to come. */
  ghost predicate Agree<S>(start: State<S>, d: State<S>, r: (State<S>, Option<Error>), each: (State<S>, Option<Error>),
                           made: nat, rest: nat)
  {
    && r.1 == each.1
    && (r.1.None? ==>
          && r.0 == d.(world := r.0.world, cells := r.0.cells) && |r.0.cells| == |start.cells| + made
          && each.0 == start.(world := r.0.world, cells := Padded(r.0.cells, rest)))
  }

  /** A call outside a batch executes its operation, with its Deferred at hand. */
  lemma CallExecutes<S>(act: Executor<S>, d: State<S>, t: Thread, call: Call)
    requires !d.collecting && (call.WriteCall? || call.ReadCall?)
    ensures Perform(act, d, t, call)
         == ExecutePending(act, d.(cells := Padded(d.cells, Made(call))), [OpOf(d, call, |d.cells|)])
  {
    assert Padded(d.cells, 1) == Padded(d.cells, 0) + [PENDING];
  }

  /** Executing depends on the instrument and the Deferreds only. */
  lemma ExecutingElsewhere<S>(act: Executor<S>, d: State<S>, e: State<S>, ops: seq<Op>)
    requires d.world == e.world && d.cells == e.cells
    ensures
      var (after, raised) := ExecutePending(act, d, ops);
      && after == d.(world := after.world, cells := after.cells) && |after.cells| == |d.cells|
      && ExecutePending(act, e, ops) == (e.(world := after.world, cells := after.cells), raised)
  {
  }

  /** One operation, by a call and over the Deferreds of all calls. */
  lemma ExecutedBeside<S>(act: Executor<S>, start: State<S>, d: State<S>, now: State<S>, op: Op, made: nat, rest: nat,
                          far: State<S>)
    requires far == start.(world := now.world, cells := Padded(now.cells, rest))
    requires now == d.(world := now.world, cells := now.cells) && |now.cells| == |start.cells| + made
    requires op.ReadOp? ==> op.slot < |now.cells|
    ensures Agree(start, d, ExecutePending(act, now, [op]), ExecutePending(act, far, [op]), made, rest)
  {
    var there := start.(world := now.world, cells := now.cells);
    ExecutingElsewhere(act, now, there, [op]);
    ExecutingBeside(act, there, op, rest);
  }

  /** The Deferred of a call, if it makes one, is the first of those made in advance. */
  lemma AtHand<S>(start: State<S>, d: State<S>, now: State<S>, call: Call, made: nat, rest: nat, ready: State<S>, far: State<S>)
    requires now == d.(world := now.world, cells := now.cells) && |now.cells| == |start.cells| + made
    requires ready == now.(cells := Padded(now.cells, Made(call)))
    requires far == start.(world := now.world, cells := Padded(now.cells, Made(call) + rest))
    ensures ready == d.(world := ready.world, cells := ready.cells) && |ready.cells| == |start.cells| + made + Made(call)
    ensures far == start.(world := ready.world, cells := Padded(ready.cells, rest))
  {
    PaddedTwice(now.cells, Made(call), rest);
  }

  /** The operation of one call, if it has one, executed after others. */
  function EachNext<S>(act: Executor<S>, each: (State<S>, Option<Error>), own: Option<Op>): (State<S>, Option<Error>) {
    if each.1.Some? || own.None? then each else ExecutePending(act, each.0, [own.value])
  }

  lemma CallAgrees<S>(act: Executor<S>, start: State<S>, d: State<S>, t: Thread, before: (State<S>, Option<Error>),
                      each: (State<S>, Option<Error>), made: nat, call: Call, rest: nat)
    requires !d.collecting && Agree(start, d, before, each, made, Made(call) + rest)
    ensures Agree(start, Scoped(d, t, call), if before.1.Some? then before else Perform(act, before.0, t, call),
                  EachNext(act, each, OpOfCall(d, call, |start.cells| + made)), made + Made(call), rest)
  {
    if each.1.None? && (call.WriteCall? || call.ReadCall?) {
      var now, op := before.0, OpOf(d, call, |start.cells| + made);
      var ready := now.(cells := Padded(now.cells, Made(call)));
      assert op == OpOf(now, call, |now.cells|);
      AtHand(start, d, now, call, made, rest, ready, each.0);
      CallExecutes(act, now, t, call);
      ExecutedBeside(act, start, d, ready, op, made + Made(call), rest, each.0);
    }
  }

  lemma EachOfSnoc<S>(act: Executor<S>, d: State<S>, ops: seq<Op>, op: Op)
    ensures
      var each := Each(act, d, ops);
      Each(act, d, ops + [op]) == if each.1.Some? then each else ExecutePending(act, each.0, [op])
  {
    assert (ops + [op])[..|ops|] == ops;
  }

  lemma InTurnOfLast<S>(act: Executor<S>, d: State<S>, t: Thread, calls: seq<Call>)
    requires calls != []
    ensures
      var before := InTurn(act, d, t, calls[..|calls| - 1]);
      InTurn(act, d, t, calls) == if before.1.Some? then before else Perform(act, before.0, t, calls[|calls| - 1])
  {
  }

  lemma LastOps<S>(d: State<S>, t: Thread, calls: seq<Call>)
    requires calls != []
    ensures
      var prefix, call := calls[..|calls| - 1], calls[|calls| - 1];
      OpsOf(d, t, calls)
      == WithOp(OpsOf(d, t, prefix), OpOfCall(Scopes(d, t, prefix), call, |d.cells| + ReadsIn(prefix)))
  {
  }

  lemma EachOfMore<S>(act: Executor<S>, all: State<S>, ops: seq<Op>, own: Option<Op>)
    ensures Each(act, all, WithOp(ops, own)) == EachNext(act, Each(act, all, ops), own)
  {
    if own.Some? {
      EachOfSnoc(act, all, ops, own.value);
    }
  }

  lemma LastScopes<S>(d: State<S>, t: Thread, calls: seq<Call>)
    requires calls != []
    ensures
      var prefix, call := calls[..|calls| - 1], calls[|calls| - 1];
      && Scopes(d, t, calls) == Scoped(Scopes(d, t, prefix), t, call)
      && Scopes(d, t, prefix).collecting == d.collecting
      && ReadsIn(calls) == ReadsIn(prefix) + Made(call)
  {
    ScopesKeepTheRest(d, t, calls[..|calls| - 1]);
  }

  /** The driver with all the Deferreds of some calls, and of `rest` later reads, made in advance. */
  function WithAll<S>(d: State<S>, calls: seq<Call>, rest: nat): State<S> {
    d.(cells := Padded(d.cells, ReadsIn(calls) + rest))
  }

  /** The operations of some calls executed one at a time, call by call. */
  function EachCall<S>(act: Executor<S>, all: State<S>, d: State<S>, t: Thread, calls: seq<Call>): (State<S>, Option<Error>) {
    if calls == [] then (all, None)
    else
      var prefix := calls[..|calls| - 1];
      EachNext(act, EachCall(act, all, d, t, prefix),
               OpOfCall(Scopes(d, t, prefix), calls[|calls| - 1], |d.cells| + ReadsIn(prefix)))
  }

  lemma {:induction false} EachCallIsEach<S>(act: Executor<S>, all: State<S>, d: State<S>, t: Thread, calls: seq<Call>)
    ensures EachCall(act, all, d, t, calls) == Each(act, all, OpsOf(d, t, calls))
  {
    if calls != [] {
      var prefix := calls[..|calls| - 1];
      EachCallIsEach(act, all, d, t, prefix);
      LastOps(d, t, calls);
      EachOfMore(act, all, OpsOf(d, t, prefix),
                 OpOfCall(Scopes(d, t, prefix), calls[|calls| - 1], |d.cells| + ReadsIn(prefix)));
    }
  }

  /** Calls one after the other execute their operations one at a time. */
  lemma {:induction false} CallsAreExecuted<S>(act: Executor<S>, d: State<S>, t: Thread, calls: seq<Call>,
                                               all: State<S>, rest: nat)
    requires !d.collecting && all == WithAll(d, calls, rest)
    ensures Agree(d, Scopes(d, t, calls), InTurn(act, d, t, calls), EachCall(act, all, d, t, calls), ReadsIn(calls), rest)
  {
    if calls == [] {
      NoCallsAgree(act, d, t, all, rest);
    } else {
      var prefix, call := calls[..|calls| - 1], calls[|calls| - 1];
      LastIsLeft(d, calls, rest);
      CallsAreExecuted(act, d, t, prefix, all, Made(call) + rest);
      LastCallAgrees(act, d, t, calls, rest, prefix, call, OpOfCall(Scopes(d, t, prefix), call, |d.cells| + ReadsIn(prefix)),
                     EachCall(act, all, d, t, prefix), EachCall(act, all, d, t, calls));
    }
  }

  lemma LastIsLeft<S>(d: State<S>, calls: seq<Call>, rest: nat)
    requires calls != []
    ensures WithAll(d, calls, rest) == WithAll(d, calls[..|calls| - 1], Made(calls[|calls| - 1]) + rest)
  {
    var n := ReadsIn(calls[..|calls| - 1]);
    assert ReadsIn(calls) + rest == n + (Made(calls[|calls| - 1]) + rest);
  }

  lemma NoCallsAgree<S>(act: Executor<S>, d: State<S>, t: Thread, all: State<S>, rest: nat)
    requires all == WithAll(d, [], rest)
    ensures Agree(d, Scopes(d, t, []), InTurn(act, d, t, []), EachCall(act, all, d, t, []), ReadsIn([]), rest)
  {
  }

  lemma LastCallAgrees<S>(act: Executor<S>, d: State<S>, t: Thread, calls: seq<Call>, rest: nat, prefix: seq<Call>, call: Call,
                          own: Option<Op>, each: (State<S>, Option<Error>), eachAfter: (State<S>, Option<Error>))
    requires !d.collecting && calls != [] && prefix == calls[..|calls| - 1] && call == calls[|calls| - 1]
    requires own == OpOfCall(Scopes(d, t, prefix), call, |d.cells| + ReadsIn(prefix))
    requires eachAfter == EachNext(act, each, own)
    requires Agree(d, Scopes(d, t, prefix), InTurn(act, d, t, prefix), each, ReadsIn(prefix), Made(call) + rest)
    ensures Agree(d, Scopes(d, t, calls), InTurn(act, d, t, calls), eachAfter, ReadsIn(calls), rest)
  {
    InTurnOfLast(act, d, t, calls);
    LastScopes(d, t, calls);
    CallStepAgrees(act, d, Scopes(d, t, prefix), t, InTurn(act, d, t, prefix), each, ReadsIn(prefix), call, rest, own,
                   Scopes(d, t, calls), InTurn(act, d, t, calls), eachAfter, ReadsIn(calls));
  }

  lemma CallStepAgrees<S>(act: Executor<S>, start: State<S>, d: State<S>, t: Thread, before: (State<S>, Option<Error>),
                          each: (State<S>, Option<Error>), made: nat, call: Call, rest: nat,
                          own: Option<Op>, e: State<S>, after: (State<S>, Option<Error>), eachAfter: (State<S>, Option<Error>), total: nat)
    requires !d.collecting && Agree(start, d, before, each, made, Made(call) + rest) && total == made + Made(call)
    requires e == Scoped(d, t, call)
    requires after == if before.1.Some? then before else Perform(act, before.0, t, call)
    requires own == OpOfCall(d, call, |start.cells| + made) && eachAfter == EachNext(act, each, own)
    ensures Agree(start, e, after, eachAfter, total, rest)
  {
    CallAgrees(act, start, d, t, before, each, made, call, rest);
  }

  // ----- the batch -----

  lemma {:induction false} OpsInBatch<S>(d: State<S>, t: Thread, calls: seq<Call>)
    requires Holds(d, t, 0) && Nested(calls)
    ensures OpsOf(Opened(d, t), t, calls) == OpsOf(d, t, calls)
  {
    if calls != [] {
      OpsInBatch(d, t, calls[..|calls| - 1]);
      ScopesInBatch(d, t, calls[..|calls| - 1]);
    }
  }

  /** Leaving a batch executes what it has collected; e is the driver with the scopes as the calls left them. */
  lemma LeavingABatch<S>(act: Executor<S>, e: State<S>, t: Thread, inside: State<S>, ops: seq<Op>, n: nat)
    requires (e.holder.None? <==> e.depth == 0) && (e.holder.Some? ==> e.holder.value == t)
    requires !e.collecting && e.pending == [] && e.handles == [] && e.authors == []
    requires Collected(Opened(e, t), inside, ops, n)
    ensures EndBatch(act, inside, true)
         == if ops == [] then (e.(cells := Padded(e.cells, n)), None)
            else ExecutePending(act, e.(cells := Padded(e.cells, n)), ops)
  {
    var cleared := inside.(collecting := false, pending := [], authors := [], handles := []);
    assert Release(cleared) == e.(cells := Padded(e.cells, n));
    ExecutingElsewhere(act, cleared, e.(cells := Padded(e.cells, n)), ops);
  }

  /** Calls in a batch execute their operations together. */
  lemma CallsAreBatched<S>(act: Executor<S>, d: State<S>, t: Thread, calls: seq<Call>)
    requires Valid(d) && CanAcquire(d, t) && !d.collecting && Nested(calls)
    ensures InOneBatch(act, d, t, calls)
         == if OpsOf(d, t, calls) == [] then (WithAll(Scopes(d, t, calls), calls, 0), None)
            else ExecutePending(act, WithAll(Scopes(d, t, calls), calls, 0), OpsOf(d, t, calls))
  {
    var started := BeginBatch(d, t).0;
    assert started == Opened(d, t) && Holds(d, t, 0);
    assert d.pending == [] && d.handles == [] && d.authors == [];
    CallsAreQueued(act, started, t, calls);
    OpsInBatch(d, t, calls);
    ScopesInBatch(d, t, calls);
    ScopesKeepTheRest(d, t, calls);
    LeavingABatch(act, Scopes(d, t, calls), t, InTurn(act, started, t, calls).0, OpsOf(d, t, calls), ReadsIn(calls));
  }

  // ----- on a direct connection -----

  /** The driver with the effect of operations, and what they raise. */
  function EndOf<S>(d: State<S>, effect: Effect<S>): (State<S>, Option<Error>) {
    (d.(world := effect.world, cells := effect.cells), effect.raised)
  }

  lemma ExecutingIsABatch<S>(dev: Device<S>, d: State<S>, ops: seq<Op>)
    requires FirstTextError(Flatten(ops)).None?
    ensures ExecutePending(Direct(dev), d, ops) == EndOf(d, AsBatch(dev, d.world, ops, d.cells))
  {
  }

  lemma TextsOfLast(ops: seq<Op>)
    requires ops != []
    ensures FirstTextError(Flatten(ops)).None? <==>
      FirstTextError(Flatten(ops[..|ops| - 1])).None? && FirstTextError(Flatten([ops[|ops| - 1]])).None?
  {
    FirstTextErrorOfAppend(Flatten(ops[..|ops| - 1]), CommandsOf(ops[|ops| - 1]));
    SingleFlat(ops[|ops| - 1]);
  }

  /** Operations executed one at a time are the one-by-one run, if all their texts are accepted. */
  lemma {:induction false} EachIsOneByOne<S>(dev: Device<S>, d: State<S>, ops: seq<Op>)
    requires FirstTextError(Flatten(ops)).None?
    ensures Each(Direct(dev), d, ops) == EndOf(d, OneByOne(dev, d.world, ops, d.cells))
  {
    if ops != [] {
      TextsOfLast(ops);
      EachIsOneByOne(dev, d, ops[..|ops| - 1]);
      var before := OneByOne(dev, d.world, ops[..|ops| - 1], d.cells);
      ExecutingIsABatch(dev, EndOf(d, before).0, [ops[|ops| - 1]]);
    }
  }

  /** With a text the command constructors refuse, they do not all go through. */
  lemma {:induction false} RefusedTextRaises<S>(act: Executor<S>, d: State<S>, ops: seq<Op>)
    requires FirstTextError(Flatten(ops)).Some?
    ensures Each(act, d, ops).1.Some?
  {
    if ops != [] {
      TextsOfLast(ops);
      if FirstTextError(Flatten(ops[..|ops| - 1])).Some? {
        RefusedTextRaises(act, d, ops[..|ops| - 1]);
      }
    }
  }

  lemma ExecutingKeepsMeaning<S>(dev: Device<S>, d: State<S>, ops: seq<Op>)
    ensures ExecutePending(Direct(dev), d, ops).1.None? <==> Each(Direct(dev), d, ops).1.None?
    ensures ExecutePending(Direct(dev), d, ops).1.None? ==>
      ExecutePending(Direct(dev), d, ops) == Each(Direct(dev), d, ops)
  {
    if FirstTextError(Flatten(ops)).Some? {
      RefusedTextRaises(Direct(dev), d, ops);
    } else {
      ExecutingIsABatch(dev, d, ops);
      EachIsOneByOne(dev, d, ops);
      BatchPreservesMeaning(dev, d.world, ops, d.cells);
    }
  }

  lemma CallsEndAsExecuted<S>(act: Executor<S>, d: State<S>, t: Thread, calls: seq<Call>)
    requires !d.collecting
    ensures
      var each := Each(act, WithAll(d, calls, 0), OpsOf(d, t, calls));
      && InTurn(act, d, t, calls).1 == each.1
      && (each.1.None? ==>
            InTurn(act, d, t, calls).0 == Scopes(d, t, calls).(world := each.0.world, cells := each.0.cells))
  {
    CallsAreExecuted(act, d, t, calls, WithAll(d, calls, 0), 0);
    EachCallIsEach(act, WithAll(d, calls, 0), d, t, calls);
  }

  /** The operations executed together, in the state the calls leave the scopes in. */
  lemma BatchEndsAsExecuted<S>(act: Executor<S>, d: State<S>, t: Thread, calls: seq<Call>)
    requires Valid(d) && CanAcquire(d, t) && !d.collecting && Nested(calls)
    ensures
      var together := ExecutePending(act, WithAll(d, calls, 0), OpsOf(d, t, calls));
      OpsOf(d, t, calls) != [] ==>
        && InOneBatch(act, d, t, calls).1 == together.1
        && InOneBatch(act, d, t, calls).0 == Scopes(d, t, calls).(world := together.0.world, cells := together.0.cells)
  {
    CallsAreBatched(act, d, t, calls);
    ScopesKeepTheRest(d, t, calls);
    ExecutingElsewhere(act, WithAll(d, calls, 0), WithAll(Scopes(d, t, calls), calls, 0), OpsOf(d, t, calls));
  }

  lemma NothingExecuted<S>(act: Executor<S>, d: State<S>, t: Thread, calls: seq<Call>)
    requires Valid(d) && CanAcquire(d, t) && !d.collecting && Nested(calls) && OpsOf(d, t, calls) == []
    ensures InOneBatch(act, d, t, calls) == InTurn(act, d, t, calls)
  {
    CallsAreBatched(act, d, t, calls);
    CallsEndAsExecuted(act, d, t, calls);
    ScopesKeepTheRest(d, t, calls);
  }

  /** The same reads, writes and verification scopes succeed in a batch exactly when they succeed one call at
      a time; and then the driver, every Deferred and the instrument end the same. */
  lemma BatchingChangesNothing<S>(dev: Device<S>, d: State<S>, t: Thread, calls: seq<Call>)
    requires Valid(d) && CanAcquire(d, t) && !d.collecting && Nested(calls)
    ensures InOneBatch(Direct(dev), d, t, calls).1.None? <==> InTurn(Direct(dev), d, t, calls).1.None?
    ensures InOneBatch(Direct(dev), d, t, calls).1.None? ==>
      InOneBatch(Direct(dev), d, t, calls) == InTurn(Direct(dev), d, t, calls)
  {
    if OpsOf(d, t, calls) == [] {
      NothingExecuted(Direct(dev), d, t, calls);
    } else {
      BatchEndsAsExecuted(Direct(dev), d, t, calls);
      CallsEndAsExecuted(Direct(dev), d, t, calls);
      ExecutingKeepsMeaning(dev, WithAll(d, calls, 0), OpsOf(d, t, calls));
    }
  }

  /** When all texts are accepted and no command faults, the batch raises exactly what the calls raise one at a
      time if and only if no exception escapes a readback's parser behind an operation that is refuted. */
  lemma BatchingKeepsTheError<S>(dev: Device<S>, d: State<S>, t: Thread, calls: seq<Call>)
    requires Valid(d) && CanAcquire(d, t) && !d.collecting && Nested(calls)
    requires FirstTextError(Flatten(OpsOf(d, t, calls))).None?
    requires RunCommands(dev, d.world, Flatten(OpsOf(d, t, calls))).fault.None?
    ensures
      var ops := OpsOf(d, t, calls);
      var values := RunCommands(dev, d.world, Flatten(ops)).values;
      InOneBatch(Direct(dev), d, t, calls).1 == InTurn(Direct(dev), d, t, calls).1
      <==> FirstEscaped(ops, values).None? || EscapeLeads(ops, values)
  {
    if OpsOf(d, t, calls) == [] {
      NothingExecuted(Direct(dev), d, t, calls);
    } else {
      BatchEndsAsExecuted(Direct(dev), d, t, calls);
      CallsEndAsExecuted(Direct(dev), d, t, calls);
      ExecutingKeepsTheError(dev, WithAll(d, calls, 0), OpsOf(d, t, calls));
    }
  }

  lemma ExecutingKeepsTheError<S>(dev: Device<S>, d: State<S>, ops: seq<Op>)
    requires FirstTextError(Flatten(ops)).None? && RunCommands(dev, d.world, Flatten(ops)).fault.None?
    ensures
      var values := RunCommands(dev, d.world, Flatten(ops)).values;
      ExecutePending(Direct(dev), d, ops).1 == Each(Direct(dev), d, ops).1
      <==> FirstEscaped(ops, values).None? || EscapeLeads(ops, values)
  {
    ExecutingIsABatch(dev, d, ops);
    EachIsOneByOne(dev, d, ops);
    BatchRaisesTheFirstError(dev, d.world, ops, d.cells);
  }

  predicate BringsReadback(call: Call) {
    call.WriteCall? && call.verification.Some? && call.verification.value.Readback?
  }

  /** The verifications the driver's own calls bring along fail with SPD3000Errors only. */
  ghost predicate ChecksFailSouth(calls: seq<Call>) {
    forall i :: 0 <= i < |calls| && BringsReadback(calls[i]) ==> FailsSouth(calls[i].verification.value.parser)
  }

  lemma {:induction false} SouthCallsQueueSouthOps<S>(d: State<S>, t: Thread, calls: seq<Call>)
    requires ChecksFailSouth(calls)
    ensures ReadbacksFailSouth(OpsOf(d, t, calls))
  {
    if calls != [] {
      var prefix := calls[..|calls| - 1];
      assert forall i :: 0 <= i < |prefix| ==> prefix[i] == calls[i];
      SouthCallsQueueSouthOps(d, t, prefix);
    }
  }

  /** With such verifications the batch raises what the calls raise one at a time whenever no command faults. */
  lemma DriverCallsKeepTheError<S>(dev: Device<S>, d: State<S>, t: Thread, calls: seq<Call>)
    requires Valid(d) && CanAcquire(d, t) && !d.collecting && Nested(calls) && ChecksFailSouth(calls)
    requires FirstTextError(Flatten(OpsOf(d, t, calls))).None?
    requires RunCommands(dev, d.world, Flatten(OpsOf(d, t, calls))).fault.None?
    ensures InOneBatch(Direct(dev), d, t, calls).1 == InTurn(Direct(dev), d, t, calls).1
  {
    var ops := OpsOf(d, t, calls);
    SouthCallsQueueSouthOps(d, t, calls);
    NothingEscapes(ops, RunCommands(dev, d.world, Flatten(ops)).values);
    BatchingKeepsTheError(dev, d, t, calls);
  }
}
