/** The batch engine of the driver as a state machine: one lock, one collecting scope, stacked overrides. */
module DriverModel {

  import opened Wrappers
  import opened Errors
  import opened Commands
  import opened Devices
  import opened Compilation
  import opened Settlement
  import opened Attribution

  type Thread = nat

  /** Any deterministic executor over states of type S: what a batch does to it and what comes back. */
  type Executor<!S> = (S, seq<Command>) -> (S, Outcome)

  /** The instrument on a direct connection, as an executor for the driver. */
  function Direct<S>(dev: Device<S>): Executor<S> {
    (s: S, commands: seq<Command>) =>
      var run := RunCommands(dev, s, commands);
      (run.world, OutcomeOf(run, commands))
  }

  /** The fields of the driver. cells holds every Deferred handed out so far; authors holds, for each
      pending operation, the thread that queued it. */
  datatype State<S> = State(
    holder: Option<Thread>,
    depth: nat,
    globally: bool,
    overrides: seq<bool>,
    collecting: bool,
    pending: seq<Op>,
    authors: seq<Thread>,
    handles: seq<nat>,
    cells: seq<Cell>,
    world: S)

  const NESTED_BATCH := ValidationError("Nested batch executions are not supported")
  const RAW_IN_BATCH := ValidationError("psu.scpi.execute() cannot run inside a batch collection scope")
  const RAW_VERIFIED :=
    ValidationError("psu.verify_writes() cannot infer expected values for psu.scpi.execute()")
  const NO_VERIFICATION := "No automatic verification is defined for this write operation"

  predicate CanAcquire<S>(d: State<S>, t: Thread) {
    d.holder.None? || d.holder.value == t
  }

  function Acquire<S>(d: State<S>, t: Thread): State<S> {
    d.(holder := Some(t), depth := d.depth + 1)
  }

  function Release<S>(d: State<S>): State<S> {
    if d.depth <= 1 then d.(holder := None, depth := 0) else d.(depth := d.depth - 1)
  }

  predicate ShouldVerify<S>(d: State<S>) {
    if d.overrides != [] then d.overrides[|d.overrides| - 1] else d.globally
  }

  /** The check a write is queued with, decided when it is queued. */
  function SelectedCheck<S>(d: State<S>, verification: Option<Check>, why: Option<string>): Option<Check> {
    if !ShouldVerify(d) then None
    else if verification.Some? then verification
    else Some(Unavailable(Nothing, if why.Some? && why.value != "" then why.value else NO_VERIFICATION))
  }

  function CancelledError(texts: seq<string>): Error {
    SouthError("SPD3000DeferredResultError",
               "Query '" + Label(texts) + "' was cancelled because its batch body did not complete")
  }

  function CancelReads(ops: seq<Op>, cells: seq<Cell>): (r: seq<Cell>)
    ensures |r| == |cells|
  {
    if ops == [] then cells
    else
      var op := ops[|ops| - 1];
      var earlier := CancelReads(ops[..|ops| - 1], cells);
      if op.ReadOp? then Put(earlier, op.slot, Get(earlier, op.slot).Reject(CancelledError(op.commands))) else earlier
  }

  /** Compile, execute and settle a list of operations. */
  function ExecutePending<S>(act: Executor<S>, d: State<S>, ops: seq<Op>): (State<S>, Option<Error>) {
    var refused := FirstTextError(Flatten(ops));
    if refused.Some? then (d, refused)
    else
      var (world, outcome) := act(d.world, Flatten(ops));
      var finished := Finish(ops, outcome, d.cells);
      (d.(world := world, cells := finished.cells), finished.raised)
  }

  // ----- the calls -----

  function DoWrite<S>(act: Executor<S>, d: State<S>, t: Thread, command: string,
                      verification: Option<Check>, why: Option<string>): (State<S>, Option<Error>)
  {
    var op := WriteOp(command, SelectedCheck(d, verification, why));
    if d.collecting then (d.(pending := d.pending + [op], authors := d.authors + [t]), None)
    else ExecutePending(act, d, [op])
  }

  /** A read hands out a new Deferred. Outside a batch it is executed at once. */
  function DoRead<S>(act: Executor<S>, d: State<S>, t: Thread, texts: seq<string>,
                     parser: seq<string> -> Result<Value, Error>): (State<S>, Option<Error>)
  {
    var slot := |d.cells|;
    var op := ReadOp(texts, parser, slot);
    var d1 := d.(cells := d.cells + [PENDING]);
    if d.collecting then
      (d1.(pending := d.pending + [op], authors := d.authors + [t], handles := d.handles + [slot]), None)
    else ExecutePending(act, d1, [op])
  }

  function BeginBatch<S>(d: State<S>, t: Thread): (State<S>, Option<Error>) {
    if d.collecting then (Release(Acquire(d, t)), Some(NESTED_BATCH))
    else (Acquire(d, t).(collecting := true, pending := [], authors := [], handles := []), None)
  }

  function EndBatch<S>(act: Executor<S>, d: State<S>, execute: bool): (State<S>, Option<Error>) {
    var cleared := d.(collecting := false, pending := [], authors := [], handles := []);
    var (after, raised) :=
      if !execute then (cleared.(cells := CancelReads(d.pending, d.cells)), None)
      else if d.pending == [] then (cleared, None)
      else ExecutePending(act, cleared, d.pending);
    (Release(after), raised)
  }

  function BeginVerify<S>(d: State<S>, t: Thread, enabled: bool): State<S> {
    Acquire(d, t).(overrides := d.overrides + [enabled])
  }

  function EndVerify<S>(d: State<S>): State<S>
    requires d.overrides != []
  {
    Release(d.(overrides := d.overrides[..|d.overrides| - 1]))
  }

  function DoRaw<S>(act: Executor<S>, d: State<S>, commands: seq<Command>): (State<S>, Option<Error>) {
    if d.collecting then (d, Some(RAW_IN_BATCH))
    else if ShouldVerify(d) then (d, Some(RAW_VERIFIED))
    else
      var (world, outcome) := act(d.world, commands);
      (d.(world := world), if outcome.Raised? then Some(outcome.error) else None)
  }

  // ----- runs -----

  datatype Call =
    | Begin
    | End(execute: bool)
    | Force(enabled: bool)
    | Unforce
    | SetGlobally(enabled: bool)
    | WriteCall(command: string, verification: Option<Check>, why: Option<string>)
    | ReadCall(texts: seq<string>, parser: seq<string> -> Result<Value, Error>)
    | RawCall(commands: seq<Command>)

  /** The operation a write or read call queues or executes; slot is the handle a read is given. */
  function OpOf<S>(d: State<S>, call: Call, slot: nat): Op
    requires call.WriteCall? || call.ReadCall?
  {
    if call.WriteCall? then WriteOp(call.command, SelectedCheck(d, call.verification, call.why))
    else ReadOp(call.texts, call.parser, slot)
  }

  datatype Event = Event(thread: Thread, call: Call)

  /** A thread that does not hold the lock waits while another one does. A scope is left only by the
      thread that entered it. */
  predicate Enabled<S>(d: State<S>, ev: Event) {
    && CanAcquire(d, ev.thread)
    && match ev.call
       case End(_) => d.collecting && d.holder == Some(ev.thread)
       case Unforce => d.overrides != [] && d.holder == Some(ev.thread)
       case ReadCall(texts, _) => texts != []
       case _ => true
  }

  /** Every scope still open accounts for one hold of the lock. */
  predicate Balanced<S>(d: State<S>) {
    d.depth == |d.overrides| + (if d.collecting then 1 else 0)
  }

  function Next<S>(act: Executor<S>, d: State<S>, ev: Event): (State<S>, Option<Error>)
    requires Enabled(d, ev)
  {
    match ev.call
    case Begin => BeginBatch(d, ev.thread)
    case End(execute) => EndBatch(act, d, execute)
    case Force(enabled) => (BeginVerify(d, ev.thread, enabled), None)
    case Unforce => (EndVerify(d), None)
    case SetGlobally(enabled) => (d.(globally := enabled), None)
    case WriteCall(command, verification, why) => DoWrite(act, d, ev.thread, command, verification, why)
    case ReadCall(texts, parser) => DoRead(act, d, ev.thread, texts, parser)
    case RawCall(commands) => DoRaw(act, d, commands)
  }

  /** The handles of the reads among some operations, in source order. */
  function SlotsOf(ops: seq<Op>): seq<nat> {
    if ops == [] then []
    else
      var op := ops[|ops| - 1];
      SlotsOf(ops[..|ops| - 1]) + (if op.ReadOp? then [op.slot] else [])
  }

  /** The lock is held exactly as deep as there are scopes open, by the thread all pending operations come
      from; nothing is pending outside a batch. The reads pending have each their own Deferred, not settled
      yet, and no Deferred has been settled twice. */
  predicate Valid<S>(d: State<S>) {
    && Balanced(d)
    && (d.holder.None? <==> d.depth == 0)
    && (!d.collecting ==> d.pending == [])
    && |d.authors| == |d.pending|
    && (forall i :: 0 <= i < |d.authors| ==> d.holder == Some(d.authors[i]))
    && d.handles == SlotsOf(d.pending)
    && WellFormed(d.pending)
    && Fresh(d.handles, d.cells)
    && SettledOnce(d.cells)
  }

  predicate SettledAtMostOnce(cell: Cell) {
    || cell == PENDING
    || (cell.settlements == 1 && cell.value.Some? != cell.error.Some?)
  }

  predicate SettledOnce(cells: seq<Cell>) {
    forall i :: 0 <= i < |cells| ==> SettledAtMostOnce(cells[i])
  }

  /** Distinct handles of Deferreds that wait to be settled. */
  predicate Fresh(slots: seq<nat>, cells: seq<Cell>) {
    && (forall i :: 0 <= i < |slots| ==> slots[i] < |cells| && cells[slots[i]] == PENDING)
    && (forall i, j :: 0 <= i < j < |slots| ==> slots[i] != slots[j])
  }

  /** What executing, cancelling or rejecting some reads may do to the Deferreds: settle some of the
      pending ones named by slots, once each, and touch no other. */
  ghost predicate SettlesOnly(slots: seq<nat>, before: seq<Cell>, after: seq<Cell>) {
    && |after| == |before|
    && (forall i :: 0 <= i < |before| && i !in slots ==> after[i] == before[i])
    && (forall i :: 0 <= i < |before| && i in slots ==> SettledAtMostOnce(after[i]))
  }

  ghost predicate SettlesAll(slots: seq<nat>, before: seq<Cell>, after: seq<Cell>) {
    && SettlesOnly(slots, before, after)
    && forall i :: 0 <= i < |slots| ==> slots[i] < |after| && after[slots[i]].settlements == 1
  }

  lemma FreshPrefix(ops: seq<Op>, cells: seq<Cell>)
    requires ops != [] && Fresh(SlotsOf(ops), cells)
    ensures Fresh(SlotsOf(ops[..|ops| - 1]), cells)
    ensures ops[|ops| - 1].ReadOp? ==>
      var slot := ops[|ops| - 1].slot;
      slot < |cells| && cells[slot] == PENDING && slot !in SlotsOf(ops[..|ops| - 1])
  {
    var prior, op := SlotsOf(ops[..|ops| - 1]), ops[|ops| - 1];
    if op.ReadOp? {
      assert SlotsOf(ops) == prior + [op.slot];
      FreshInit(prior, op.slot, cells);
    } else {
      assert SlotsOf(ops) == prior + [] == prior;
    }
  }

  lemma FreshInit(prior: seq<nat>, slot: nat, cells: seq<Cell>)
    requires Fresh(prior + [slot], cells)
    ensures Fresh(prior, cells) && slot < |cells| && cells[slot] == PENDING && slot !in prior
  {
    var slots := prior + [slot];
    assert slots[|prior|] == slot;
    assert forall i :: 0 <= i < |prior| ==> prior[i] == slots[i];
  }

  /** A Deferred just made joins those that wait. */
  lemma FreshSnoc(slots: seq<nat>, cells: seq<Cell>)
    requires Fresh(slots, cells) && SettledOnce(cells)
    ensures Fresh(slots + [|cells|], cells + [PENDING]) && SettledOnce(cells + [PENDING])
  {
  }

  /** One more read settled. */
  lemma SettlesOneMore(prior: seq<nat>, slot: nat, before: seq<Cell>, middle: seq<Cell>, cell: Cell)
    requires SettlesAll(prior, before, middle)
    requires slot < |before| && slot !in prior && before[slot] == PENDING
    requires cell.settlements == 1 && SettledAtMostOnce(cell)
    ensures SettlesAll(prior + [slot], before, Put(middle, slot, cell))
  {
    var after := Put(middle, slot, cell);
    forall i | 0 <= i < |before| && i !in prior + [slot]
      ensures after[i] == before[i]
    {
      assert (prior + [slot])[|prior|] == slot;
      assert i in prior ==> i in prior + [slot];
    }
  }

  lemma {:induction false} SettleReadsSettlesAll(ops: seq<Op>, values: seq<Option<string>>, cells: seq<Cell>)
    requires Fresh(SlotsOf(ops), cells)
    ensures SettlesAll(SlotsOf(ops), cells, SettleReads(ops, values, cells))
  {
    if ops != [] {
      var prefix, op := ops[..|ops| - 1], ops[|ops| - 1];
      FreshPrefix(ops, cells);
      SettleReadsSettlesAll(prefix, values, cells);
      if op.ReadOp? {
        var verdict := JudgeRead(op, Pick(values, Interval(|Flatten(prefix)|, |op.commands|)));
        SettlesOneMore(SlotsOf(prefix), op.slot, cells, SettleReads(prefix, values, cells), PENDING.SettledBy(verdict));
      }
    }
  }

  lemma {:induction false} RejectReadsSettlesAll(ops: seq<Op>, e: Error, cells: seq<Cell>)
    requires Fresh(SlotsOf(ops), cells)
    ensures SettlesAll(SlotsOf(ops), cells, RejectReads(ops, e, cells))
  {
    if ops != [] {
      var prefix, op := ops[..|ops| - 1], ops[|ops| - 1];
      FreshPrefix(ops, cells);
      RejectReadsSettlesAll(prefix, e, cells);
      if op.ReadOp? {
        SettlesOneMore(SlotsOf(prefix), op.slot, cells, RejectReads(prefix, e, cells), PENDING.Reject(e));
      }
    }
  }

  lemma {:induction false} CancelReadsSettlesAll(ops: seq<Op>, cells: seq<Cell>)
    requires Fresh(SlotsOf(ops), cells)
    ensures SettlesAll(SlotsOf(ops), cells, CancelReads(ops, cells))
  {
    if ops != [] {
      var prefix, op := ops[..|ops| - 1], ops[|ops| - 1];
      FreshPrefix(ops, cells);
      CancelReadsSettlesAll(prefix, cells);
      if op.ReadOp? {
        SettlesOneMore(SlotsOf(prefix), op.slot, cells, CancelReads(prefix, cells),
                       PENDING.Reject(CancelledError(op.commands)));
      }
    }
  }

  /** An outcome the driver can place: not an SPD3000Error that lacks its index while the batch holds a
      write nothing can verify. */
  predicate Placed(ops: seq<Op>, outcome: Outcome) {
    outcome.Raised? && IsSouth(outcome.error) && BlamedIndex(outcome.error).None? ==> !AnyUnqueryable(ops)
  }

  /** A placed failure rejects all reads with what is raised; an unplaced one leaves them alone. */
  lemma FailureRejects(ops: seq<Op>, e: Error, cells: seq<Cell>)
    ensures
      var finished := Finish(ops, Raised(e), cells);
      && finished.raised.Some?
      && finished.cells == if Placed(ops, Raised(e)) then RejectReads(ops, finished.raised.value, cells) else cells
  {
    var blamed := BlamedCheck(CheckTable(ops), BlamedIndex(e));
    if IsSouth(e) && BlamedIndex(e).None? {
      UnqueryableHasEntry(ops);
    }
    BlamedEntry(ops, BlamedIndex(e));
  }

  lemma BlamedEntry(ops: seq<Op>, failed: Option<int>)
    ensures
      var blamed := BlamedCheck(CheckTable(ops), failed);
      && (blamed.Some? && failed.Some? ==> IsReadback(blamed.value.op))
      && (blamed.Some? && failed.None? ==> IsUnqueryable(blamed.value.op))
      && (failed.None? ==> blamed.Some? == AnyWithoutReadback(CheckTable(ops)))
  {
    var table := CheckTable(ops);
    CheckTableShape(ops);
    BlamedIsInTable(table, failed);
    var blamed := BlamedCheck(table, failed);
    if blamed.Some? {
      var r :| 0 <= r < |table| && table[r] == blamed.value;
    }
  }

  /** Executing settles every read of the batch exactly once, whatever the executor answers or raises;
      with an unplaced error it settles none. */
  lemma FinishSettlesAll(ops: seq<Op>, outcome: Outcome, cells: seq<Cell>)
    requires Fresh(SlotsOf(ops), cells)
    ensures Placed(ops, outcome) ==> SettlesAll(SlotsOf(ops), cells, Finish(ops, outcome, cells).cells)
    ensures !Placed(ops, outcome) ==> Finish(ops, outcome, cells).cells == cells
  {
    match outcome
    case Values(values) => SettleReadsSettlesAll(ops, values, cells);
    case Raised(e) =>
      FailureRejects(ops, e, cells);
      RejectReadsSettlesAll(ops, Finish(ops, outcome, cells).raised.value, cells);
  }

}
