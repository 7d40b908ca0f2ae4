/** What holds over every run of the driver, with any number of threads. */
module DriverRuns {

  import opened Wrappers
  import opened Errors
  import opened Commands
  import opened Devices
  import opened Compilation
  import opened Settlement
  import opened Attribution
  import opened DriverModel

  // ----- one step -----

  /** A Deferred that is settled stays as it is, and Deferreds are only ever added. */
  ghost predicate KeepsSettled(before: seq<Cell>, after: seq<Cell>) {
    && |before| <= |after|
    && forall i :: 0 <= i < |before| && before[i].settlements == 1 ==> after[i] == before[i]
  }

  lemma SettlesOnlyKeeps(slots: seq<nat>, before: seq<Cell>, after: seq<Cell>)
    requires Fresh(slots, before) && SettlesOnly(slots, before, after)
    requires SettledOnce(before)
    ensures KeepsSettled(before, after)
    ensures SettledOnce(after)
  {
    forall i | 0 <= i < |before|
      ensures before[i].settlements == 1 ==> after[i] == before[i]
      ensures SettledAtMostOnce(after[i])
    {
      if i in slots {
        assert before[i] == PENDING;
      }
    }
  }

  /** The reads of a batch are settled, exactly once each, if and only if its texts are accepted and its
      outcome is placed; otherwise they are left as they were. Nothing else changes but the instrument. */
  lemma ExecutePendingSettles<S>(act: Executor<S>, d: State<S>, ops: seq<Op>)
    requires Fresh(SlotsOf(ops), d.cells)
    requires SettledOnce(d.cells)
    ensures
      var after := ExecutePending(act, d, ops).0;
      && after == d.(world := after.world, cells := after.cells)
      && KeepsSettled(d.cells, after.cells) && |after.cells| == |d.cells|
      && SettledOnce(after.cells)
      && SettlesOnly(SlotsOf(ops), d.cells, after.cells)
      && (FirstTextError(Flatten(ops)).None? && Placed(ops, act(d.world, Flatten(ops)).1) ==>
            SettlesAll(SlotsOf(ops), d.cells, after.cells))
      && (!(FirstTextError(Flatten(ops)).None? && Placed(ops, act(d.world, Flatten(ops)).1)) ==>
            after.cells == d.cells)
  {
    if FirstTextError(Flatten(ops)).None? {
      FinishSettlesAll(ops, act(d.world, Flatten(ops)).1, d.cells);
    }
    SettlesOnlyKeeps(SlotsOf(ops), d.cells, ExecutePending(act, d, ops).0.cells);
  }

  lemma SlotsOfSnoc(ops: seq<Op>, op: Op)
    ensures SlotsOf(ops + [op]) == SlotsOf(ops) + (if op.ReadOp? then [op.slot] else [])
  {
    assert (ops + [op])[..|ops|] == ops;
  }

  lemma SlotsOfOne(op: Op)
    ensures SlotsOf([op]) == if op.ReadOp? then [op.slot] else []
  {
    assert [op] == [] + [op];
    SlotsOfSnoc([], op);
  }

  lemma WriteKeepsValid<S>(act: Executor<S>, d: State<S>, ev: Event)
    requires Valid(d) && ev.call.WriteCall? && Enabled(d, ev)
    ensures Valid(Next(act, d, ev).0) && KeepsSettled(d.cells, Next(act, d, ev).0.cells)
  {
    var op := WriteOp(ev.call.command, SelectedCheck(d, ev.call.verification, ev.call.why));
    SlotsOfSnoc(d.pending, op);
    SlotsOfOne(op);
    if !d.collecting {
      ExecutePendingSettles(act, d, [op]);
    }
  }

  lemma QueuedReadKeepsValid<S>(d: State<S>, t: Thread, op: Op)
    requires Valid(d) && d.collecting && d.holder == Some(t) && op.ReadOp? && op.slot == |d.cells| && op.commands != []
    ensures Valid(d.(pending := d.pending + [op], authors := d.authors + [t], handles := d.handles + [|d.cells|],
                     cells := d.cells + [PENDING]))
  {
    SlotsOfSnoc(d.pending, op);
    FreshSnoc(d.handles, d.cells);
  }

  lemma ReadKeepsValid<S>(act: Executor<S>, d: State<S>, ev: Event)
    requires Valid(d) && ev.call.ReadCall? && Enabled(d, ev)
    ensures Valid(Next(act, d, ev).0) && KeepsSettled(d.cells, Next(act, d, ev).0.cells)
  {
    var op := ReadOp(ev.call.texts, ev.call.parser, |d.cells|);
    if d.collecting {
      QueuedReadKeepsValid(d, ev.thread, op);
    } else {
      var d1 := d.(cells := d.cells + [PENDING]);
      SlotsOfOne(op);
      FreshSnoc([], d.cells);
      assert [] + [|d.cells|] == [|d.cells|];
      ExecutePendingSettles(act, d1, [op]);
      KeepsSettledFrom(d.cells, d1.cells, ExecutePending(act, d1, [op]).0.cells);
    }
  }

  lemma KeepsSettledFrom(before: seq<Cell>, middle: seq<Cell>, after: seq<Cell>)
    requires before <= middle && KeepsSettled(middle, after)
    ensures KeepsSettled(before, after)
  {
  }

  lemma EndKeepsValid<S>(act: Executor<S>, d: State<S>, ev: Event)
    requires Valid(d) && ev.call.End? && Enabled(d, ev)
    ensures Valid(Next(act, d, ev).0) && KeepsSettled(d.cells, Next(act, d, ev).0.cells)
  {
    var cleared := d.(collecting := false, pending := [], authors := [], handles := []);
    if !ev.call.execute {
      CancelReadsSettlesAll(d.pending, d.cells);
      SettlesOnlyKeeps(d.handles, d.cells, CancelReads(d.pending, d.cells));
    } else if d.pending != [] {
      ExecutePendingSettles(act, cleared, d.pending);
    }
  }

  /** Every call keeps the invariant, and changes no Deferred that is settled. */
  lemma NextKeepsValid<S>(act: Executor<S>, d: State<S>, ev: Event)
    requires Valid(d) && Enabled(d, ev)
    ensures Valid(Next(act, d, ev).0) && KeepsSettled(d.cells, Next(act, d, ev).0.cells)
  {
    match ev.call
    case End(_) => EndKeepsValid(act, d, ev);
    case WriteCall(_, _, _) => WriteKeepsValid(act, d, ev);
    case ReadCall(_, _) => ReadKeepsValid(act, d, ev);
    case _ =>
  }

  /** A batch opened inside a batch is refused and leaves the outer one, and the lock, as they were. */
  lemma NestedBatchChangesNothing<S>(d: State<S>, t: Thread)
    requires Valid(d) && d.collecting && CanAcquire(d, t)
    ensures BeginBatch(d, t) == (d, Some(NESTED_BATCH))
  {
  }

  // ----- runs -----

  function Initial<S>(world: S, globally: bool): State<S> {
    State(None, 0, globally, [], false, [], [], [], [], world)
  }

  /** The calls can happen in this order: each finds the lock free or its own. */
  ghost predicate IsRun<S>(act: Executor<S>, start: State<S>, events: seq<Event>)
    decreases |events|, 0
  {
    events == [] ||
    (IsRun(act, start, events[..|events| - 1]) &&
     Enabled(After(act, start, events[..|events| - 1]), events[|events| - 1]))
  }

  ghost function After<S>(act: Executor<S>, start: State<S>, events: seq<Event>): State<S>
    requires IsRun(act, start, events)
    decreases |events|, 1
  {
    if events == [] then start
    else Next(act, After(act, start, events[..|events| - 1]), events[|events| - 1]).0
  }

  /** Over every run of any number of threads: the lock is held exactly as deep as scopes are open, only
      the holder's operations are pending, and no Deferred is ever settled twice. */
  lemma {:induction false} EveryRunIsValid<S>(act: Executor<S>, world: S, globally: bool, events: seq<Event>)
    requires IsRun(act, Initial(world, globally), events)
    ensures Valid(After(act, Initial(world, globally), events))
  {
    if events != [] {
      var earlier := events[..|events| - 1];
      EveryRunIsValid(act, world, globally, earlier);
      NextKeepsValid(act, After(act, Initial(world, globally), earlier), events[|events| - 1]);
    }
  }

  /** Once every scope has been left, in whatever way, the lock is free and no batch state is left. */
  lemma FreeLockMeansNoScope<S>(act: Executor<S>, world: S, globally: bool, events: seq<Event>)
    requires IsRun(act, Initial(world, globally), events)
    ensures
      var d := After(act, Initial(world, globally), events);
      && (d.holder.None? <==> d.overrides == [] && !d.collecting)
      && (d.holder.None? ==> d.depth == 0 && d.pending == [] && d.handles == [])
      && (forall i :: 0 <= i < |d.authors| ==> d.holder == Some(d.authors[i]))
  {
    EveryRunIsValid(act, world, globally, events);
  }

  /** A Deferred settled at some point of a run is the same ever after. */
  lemma {:induction false} SettledForGood<S>(act: Executor<S>, world: S, globally: bool, events: seq<Event>, k: nat)
    requires IsRun(act, Initial(world, globally), events) && k <= |events|
    ensures IsRun(act, Initial(world, globally), events[..k])
    ensures KeepsSettled(After(act, Initial(world, globally), events[..k]).cells,
                         After(act, Initial(world, globally), events).cells)
    decreases |events|
  {
    if k == |events| {
      assert events[..k] == events;
    } else {
      var earlier := events[..|events| - 1];
      assert earlier[..k] == events[..k];
      SettledForGood(act, world, globally, earlier, k);
      EveryRunIsValid(act, world, globally, earlier);
      NextKeepsValid(act, After(act, Initial(world, globally), earlier), events[|events| - 1]);
    }
  }

  // ----- nothing stays pending -----

  /** Every SPD3000Error the executor raises carries the index of the failing command. */
  ghost predicate CarriesIndex<S(!new)>(act: Executor<S>) {
    forall s: S, commands :: act(s, commands).1.Raised? && IsSouth(act(s, commands).1.error) ==>
      BlamedIndex(act(s, commands).1.error).Some?
  }

  predicate ValidTexts(call: Call) {
    match call
    case WriteCall(command, verification, _) =>
      TextError(command).None? && (verification.Some? && verification.value.Readback? ==> TextError(verification.value.query).None?)
    case ReadCall(texts, _) => forall i :: 0 <= i < |texts| ==> TextError(texts[i]).None?
    case _ => true
  }

  /** Everything but the reads pending in an open batch is settled. */
  predicate NothingForgotten<S>(d: State<S>) {
    && FirstTextError(Flatten(d.pending)).None?
    && SettledBut(d.handles, d.cells)
  }

  lemma ValidTextsCompile(op: Op)
    requires forall i :: 0 <= i < |CommandsOf(op)| ==> TextError(CommandsOf(op)[i].text).None?
    ensures FirstTextError(CommandsOf(op)).None?
  {
    ValidMeansNoTextError(CommandsOf(op));
  }

  lemma OneMorePending(ops: seq<Op>, op: Op)
    requires FirstTextError(Flatten(ops)).None? && FirstTextError(CommandsOf(op)).None?
    ensures FirstTextError(Flatten(ops + [op])).None?
  {
    assert (ops + [op])[..|ops|] == ops;
    FirstTextErrorOfAppend(Flatten(ops), CommandsOf(op));
  }

  lemma CommandsOfCallValid<S>(d: State<S>, ev: Event)
    requires Enabled(d, ev) && ValidTexts(ev.call)
    requires ev.call.WriteCall? || ev.call.ReadCall?
    ensures FirstTextError(CommandsOf(OpOf(d, ev.call, |d.cells|))).None?
  {
    ValidTextsCompile(OpOf(d, ev.call, |d.cells|));
  }

  /** Everything but what is named by the handles is settled. */
  predicate SettledBut(handles: seq<nat>, cells: seq<Cell>) {
    forall i :: 0 <= i < |cells| && i !in handles ==> cells[i].settlements == 1
  }

  lemma OneMoreHandle(handles: seq<nat>, cells: seq<Cell>)
    requires SettledBut(handles, cells)
    ensures SettledBut(handles + [|cells|], cells + [PENDING])
  {
    forall i | 0 <= i < |cells + [PENDING]| && i !in handles + [|cells|]
      ensures (cells + [PENDING])[i].settlements == 1
    {
      assert (handles + [|cells|])[|handles|] == |cells|;
      assert i in handles ==> i in handles + [|cells|];
    }
  }

  lemma QueueingForgetsNothing<S>(act: Executor<S>, d: State<S>, ev: Event)
    requires Valid(d) && NothingForgotten(d) && Enabled(d, ev) && ValidTexts(ev.call)
    requires (ev.call.WriteCall? || ev.call.ReadCall?) && d.collecting
    ensures NothingForgotten(Next(act, d, ev).0)
  {
    CommandsOfCallValid(d, ev);
    OneMorePending(d.pending, OpOf(d, ev.call, |d.cells|));
    OneMoreHandle(d.handles, d.cells);
  }

  lemma AllSettledNow(slots: seq<nat>, before: seq<Cell>, after: seq<Cell>)
    requires SettledBut(slots, before) && SettlesAll(slots, before, after)
    ensures SettledBut([], after)
  {
    forall i | 0 <= i < |after|
      ensures after[i].settlements == 1
    {
      if i in slots {
        var j :| 0 <= j < |slots| && slots[j] == i;
      }
    }
  }

  lemma ExecutingForgetsNothing<S(!new)>(act: Executor<S>, d: State<S>, ev: Event)
    requires CarriesIndex(act)
    requires Valid(d) && NothingForgotten(d) && Enabled(d, ev) && ValidTexts(ev.call)
    requires (ev.call.WriteCall? || ev.call.ReadCall?) && !d.collecting
    ensures NothingForgotten(Next(act, d, ev).0)
  {
    var op := OpOf(d, ev.call, |d.cells|);
    CommandsOfCallValid(d, ev);
    OneMorePending([], op);
    assert [] + [op] == [op];
    SlotsOfOne(op);
    OneMoreHandle([], d.cells);
    FreshSnoc([], d.cells);
    assert [] + [|d.cells|] == [|d.cells|];
    var d1 := if op.ReadOp? then d.(cells := d.cells + [PENDING]) else d;
    ExecutePendingSettles(act, d1, [op]);
    AllSettledNow(SlotsOf([op]), d1.cells, ExecutePending(act, d1, [op]).0.cells);
  }

  lemma EndingForgetsNothing<S(!new)>(act: Executor<S>, d: State<S>, ev: Event)
    requires CarriesIndex(act) && Valid(d) && NothingForgotten(d) && Enabled(d, ev) && ev.call.End?
    ensures NothingForgotten(Next(act, d, ev).0)
  {
    var cleared := d.(collecting := false, pending := [], authors := [], handles := []);
    if !ev.call.execute {
      CancelReadsSettlesAll(d.pending, d.cells);
      AllSettledNow(d.handles, d.cells, CancelReads(d.pending, d.cells));
    } else if d.pending != [] {
      ExecutePendingSettles(act, cleared, d.pending);
      AllSettledNow(d.handles, d.cells, ExecutePending(act, cleared, d.pending).0.cells);
    }
  }

  /** Over every run whose texts are valid and whose execution errors carry their index, a Deferred waits
      exactly as long as the batch that collects it is open: by the time a batch is left, in whatever way,
      every Deferred made in it is settled exactly once. */
  lemma {:induction false} NothingIsForgotten<S(!new)>(act: Executor<S>, world: S, globally: bool, events: seq<Event>)
    requires CarriesIndex(act) && IsRun(act, Initial(world, globally), events)
    requires forall i :: 0 <= i < |events| ==> ValidTexts(events[i].call)
    ensures
      var d := After(act, Initial(world, globally), events);
      && NothingForgotten(d)
      && forall i :: 0 <= i < |d.cells| ==>
           if i in d.handles then d.collecting && d.cells[i] == PENDING
           else d.cells[i].settlements == 1 && d.cells[i].Done()
  {
    if events == [] {
      assert Flatten([]) == [];
    } else {
      var earlier, ev := events[..|events| - 1], events[|events| - 1];
      NothingIsForgotten(act, world, globally, earlier);
      var d := After(act, Initial(world, globally), earlier);
      EveryRunIsValid(act, world, globally, earlier);
      EveryRunIsValid(act, world, globally, events);
      match ev.call
      case End(_) => EndingForgetsNothing(act, d, ev);
      case WriteCall(_, _, _) =>
        if d.collecting { QueueingForgetsNothing(act, d, ev); } else { ExecutingForgetsNothing(act, d, ev); }
      case ReadCall(_, _) =>
        if d.collecting { QueueingForgetsNothing(act, d, ev); } else { ExecutingForgetsNothing(act, d, ev); }
      case _ =>
    }
  }

  // ----- the responses -----

  /** The parsed results of the reads among some operations, in source order. */
  function ResultsOf(ops: seq<Op>, values: seq<Option<string>>): seq<Value> {
    if ops == [] then []
    else
      var prefix, op := ops[..|ops| - 1], ops[|ops| - 1];
      if op.WriteOp? then ResultsOf(prefix, values)
      else
        var verdict := JudgeRead(op, Pick(values, Interval(|Flatten(prefix)|, |op.commands|)));
        ResultsOf(prefix, values) + [if verdict.Success? then verdict.value else Nothing]
  }

  /** What deferred.value gives for each handle; a handle without a value gives none. */
  function ValuesAt(cells: seq<Cell>, handles: seq<nat>): seq<Option<Value>> {
    seq(|handles|, i requires 0 <= i < |handles| =>
      if Get(cells, handles[i]).error.None? then Get(cells, handles[i]).value else None)
  }

  function AllSome(values: seq<Value>): seq<Option<Value>> {
    seq(|values|, i requires 0 <= i < |values| => Some(values[i]))
  }

  /** A batch that raises nothing has, at the handles of its reads, exactly their parsed results: one per
      user query in source order, and none for the readbacks. */
  lemma {:induction false} ResultsAtHandles(ops: seq<Op>, values: seq<Option<string>>, cells: seq<Cell>)
    requires Fresh(SlotsOf(ops), cells) && FirstRefuted(ops, values).None?
    ensures ValuesAt(SettleReads(ops, values, cells), SlotsOf(ops)) == AllSome(ResultsOf(ops, values))
  {
    if ops != [] {
      var prefix, op := ops[..|ops| - 1], ops[|ops| - 1];
      FreshPrefix(ops, cells);
      ResultsAtHandles(prefix, values, cells);
      SettleReadsSettlesAll(prefix, values, cells);
      if op.ReadOp? {
        var verdict := JudgeRead(op, Pick(values, Interval(|Flatten(prefix)|, |op.commands|)));
        OneMoreValue(SettleReads(prefix, values, cells), SlotsOf(prefix), op.slot, verdict);
        AllSomeSnoc(ResultsOf(prefix, values), if verdict.Success? then verdict.value else Nothing);
      }
    }
  }

  lemma OneMoreValue(cells: seq<Cell>, slots: seq<nat>, slot: nat, verdict: Result<Value, Error>)
    requires slot < |cells| && slot !in slots && cells[slot] == PENDING && verdict.Success?
    ensures ValuesAt(Put(cells, slot, PENDING.SettledBy(verdict)), slots + [slot])
         == ValuesAt(cells, slots) + [Some(verdict.value)]
  {
    assert forall i :: 0 <= i < |slots| ==> slots[i] in slots;
  }

  lemma AllSomeSnoc(values: seq<Value>, value: Value)
    ensures AllSome(values + [value]) == AllSome(values) + [Some(value)]
  {
  }

  /** A read outside a batch that raises nothing has its Deferred resolved. */
  lemma ReadResolves<S>(act: Executor<S>, d: State<S>, t: Thread, texts: seq<string>, parser: seq<string> -> Result<Value, Error>)
    requires !d.collecting && DoRead(act, d, t, texts, parser).1.None?
    ensures
      var cells := DoRead(act, d, t, texts, parser).0.cells;
      |cells| == |d.cells| + 1 && cells[|d.cells|].error.None? && cells[|d.cells|].value.Some?
  {
    var op, cells := ReadOp(texts, parser, |d.cells|), d.cells + [PENDING];
    var outcome := act(d.world, Flatten([op])).1;
    assert outcome.Values?;
    SingleReadResolves(op, outcome.values, cells);
  }

  lemma SingleReadResolves(op: Op, values: seq<Option<string>>, cells: seq<Cell>)
    requires op.ReadOp? && op.slot == |cells| - 1 && cells[op.slot] == PENDING && FirstRefuted([op], values).None?
    ensures
      var cell := SettleReads([op], values, cells)[op.slot];
      cell.error.None? && cell.value.Some?
  {
    SlotsOfOne(op);
    ResultsAtHandles([op], values, cells);
    assert ValuesAt(SettleReads([op], values, cells), [op.slot])[0].Some?;
  }

  /** Leaving a batch: if it raises nothing, the values to be handed back are those results; the driver
      hands back nothing when it raises. */
  lemma ResponsesOfBatch<S>(act: Executor<S>, d: State<S>)
    requires Valid(d) && d.collecting && d.pending != []
    requires EndBatch(act, d, true).1.None?
    ensures
      var outcome := act(d.world, Flatten(d.pending)).1;
      && outcome.Values?
      && ValuesAt(EndBatch(act, d, true).0.cells, d.handles) == AllSome(ResultsOf(d.pending, outcome.values))
  {
    var outcome := act(d.world, Flatten(d.pending)).1;
    ResultsAtHandles(d.pending, if outcome.Values? then outcome.values else [], d.cells);
  }

}
