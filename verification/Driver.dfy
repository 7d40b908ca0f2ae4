/** The driver object and its Deferreds (driver.py, execution.py), proved against the state machine. */
module Driver {

  import opened Wrappers
  import opened Errors
  import opened Commands
  import opened Devices
  import opened Compilation
  import opened Settlement
  import opened Attribution
  import DM = DriverModel
  import DR = DriverRuns

  /** A query result populated when its collecting batch exits. */
  class Deferred {
    var value: Option<Value>
    var error: Option<Error>
    ghost var settlements: nat

    constructor ()
      ensures State() == PENDING
    {
      value, error, settlements := None, None, 0;
    }

    ghost function State(): Cell
      reads this
    {
      Cell(value, error, settlements)
    }

    method Resolve(v: Value)
      modifies this
      ensures State() == old(State()).Resolve(v)
    {
      value := Some(v);
      settlements := settlements + 1;
    }

    method Reject(e: Error)
      modifies this
      ensures State() == old(State()).Reject(e)
    {
      error := Some(e);
      settlements := settlements + 1;
    }

    /** The value property: the resolved value, or the stored or pending error. */
    method Read() returns (r: Result<Value, Error>)
      ensures error.Some? ==> r == Failure(error.value)
      ensures error.None? && value.Some? ==> r == Success(value.value)
      ensures error.None? && value.None? ==> r.Failure?
    {
      if error.Some? {
        r := Failure(error.value);
      } else if value.None? {
        r := Failure(SouthError("SPD3000DeferredResultError", "pending until its batch execution completes"));
      } else {
        r := Success(value.value);
      }
    }
  }

  ghost function CellsOf(deferreds: seq<Deferred>): (cells: seq<Cell>)
    reads deferreds
    ensures |cells| == |deferreds|
    ensures forall i :: 0 <= i < |cells| ==> cells[i] == deferreds[i].State()
  {
    seq(|deferreds|, i requires 0 <= i < |deferreds| reads deferreds => deferreds[i].State())
  }

  /** The entries are reads whose Deferreds exist and whose indexes stay within the replies. */
  predicate ReadsFit(table: seq<ReadEntry>, slots: nat, replies: nat) {
    forall r :: 0 <= r < |table| ==>
      && table[r].op.ReadOp? && table[r].op.slot < slots && table[r].indexes != []
      && forall i :: 0 <= i < |table[r].indexes| ==> table[r].indexes[i] < replies
  }

  /** The entries are verified writes, with a readback index within the replies if they have a readback. */
  predicate ChecksFit(table: seq<CheckEntry>, replies: nat) {
    forall r :: 0 <= r < |table| ==>
      && table[r].op.WriteOp? && table[r].op.check.Some?
      && table[r].queryIndex.Some? == table[r].op.check.value.Readback?
      && (table[r].queryIndex.Some? ==> table[r].queryIndex.value < replies)
  }

  lemma {:induction false} ReadTableFits(ops: seq<Op>, n: nat)
    requires WellFormed(ops) && SlotsBelow(ops, n)
    ensures ReadsFit(ReadTable(ops), n, |Flatten(ops)|)
  {
    if ops != [] {
      ReadTableFits(ops[..|ops| - 1], n);
    }
  }

  lemma CheckTableFits(ops: seq<Op>)
    ensures ChecksFit(CheckTable(ops), |Flatten(ops)|)
  {
    CheckTableShape(ops);
  }

  class SPD3000<S(!new)> {
    const act: DM.Executor<S>
    var world: S
    var holder: Option<DM.Thread>
    var depth: nat
    var globally: bool
    var overrides: seq<bool>
    var collecting: bool
    var pending: seq<Op>
    ghost var authors: seq<DM.Thread>
    var handles: seq<nat>
    var deferreds: seq<Deferred>

    /** Results are aligned with their batch, and every Deferred is an object of its own. */
    ghost predicate Valid()
      reads this, deferreds
    {
      && (forall s: S, commands :: act(s, commands).1.Values? ==> |act(s, commands).1.values| == |commands|)
      && (forall i, j :: 0 <= i < j < |deferreds| ==> deferreds[i] != deferreds[j])
    }

    ghost function Cells(): (cells: seq<Cell>)
      reads this`deferreds, deferreds
      ensures |cells| == |deferreds|
    {
      CellsOf(deferreds)
    }

    ghost function Model(): DM.State<S>
      reads this, deferreds
    {
      DM.State(holder, depth, globally, overrides, collecting, pending, authors, handles, Cells(), world)
    }

    constructor (act: DM.Executor<S>, world: S, globally: bool)
      requires forall s: S, commands :: act(s, commands).1.Values? ==> |act(s, commands).1.values| == |commands|
      ensures Valid() && this.act == act
      ensures Model() == DM.State(None, 0, globally, [], false, [], [], [], [], world)
    {
      this.act, this.world, this.globally := act, world, globally;
      holder, depth, overrides, collecting := None, 0, [], false;
      pending, authors, handles, deferreds := [], [], [], [];
    }

    method Settle(slot: nat, verdict: Result<Value, Error>)
      requires Valid() && slot < |deferreds|
      modifies deferreds[slot]
      ensures Valid() && Cells() == Put(old(Cells()), slot, Get(old(Cells()), slot).SettledBy(verdict))
    {
      match verdict
      case Success(v) => deferreds[slot].Resolve(v);
      case Failure(e) => deferreds[slot].Reject(e);
    }

    method RejectAll(readTable: seq<ReadEntry>, e: Error)
      requires Valid() && exists replies :: ReadsFit(readTable, |deferreds|, replies)
      modifies deferreds
      ensures Valid() && Cells() == RejectTable(readTable, e, old(Cells()))
    {
      for r := 0 to |readTable|
        invariant Valid() && Cells() == RejectTable(readTable[..r], e, old(Cells()))
      {
        assert readTable[..r + 1][..r] == readTable[..r];
        Settle(readTable[r].op.slot, Failure(e));
      }
      assert readTable[..|readTable|] == readTable;
    }

    /** The loop that hands every read the replies to its own queries. */
    method ResolveReads(readTable: seq<ReadEntry>, values: seq<Option<string>>) returns (errors: seq<Filed>)
      requires Valid() && ReadsFit(readTable, |deferreds|, |values|)
      modifies deferreds
      ensures Valid() && Cells() == SettleTable(readTable, values, old(Cells()))
      ensures errors == ReadErrors(readTable, values)
    {
      errors := [];
      for r := 0 to |readTable|
        invariant Valid() && Cells() == SettleTable(readTable[..r], values, old(Cells()))
        invariant errors == ReadErrors(readTable[..r], values)
      {
        assert readTable[..r + 1][..r] == readTable[..r];
        var entry := readTable[r];
        var responses: seq<Option<string>> := [];
        for i := 0 to |entry.indexes|
          invariant responses == Pick(values, entry.indexes)[..i]
        {
          responses := responses + [values[entry.indexes[i]]];
        }
        assert responses == Pick(values, entry.indexes);
        var verdict;
        if AllAnswered(responses) {
          verdict := entry.op.parser(Answers(responses));
        } else {
          verdict := Failure(NoResponse(entry.op.commands));
        }
        Settle(entry.op.slot, verdict);
        if verdict.Failure? {
          errors := errors + [Filed(entry.indexes[0], verdict.error)];
        }
      }
      assert readTable[..|readTable|] == readTable;
    }

    /** The loop over the verified writes. It ends early when an exception escapes a parser. */
    method ConfirmWrites(checkTable: seq<CheckEntry>, values: seq<Option<string>>)
      returns (errors: seq<Filed>, escaped: Option<Error>)
      requires ChecksFit(checkTable, |values|)
      ensures escaped == EscapedCheck(checkTable, values)
      ensures errors == if escaped.Some? then [] else CheckErrors(checkTable, values)
    {
      errors, escaped := [], None;
      for r := 0 to |checkTable|
        invariant escaped.None? && EscapedCheck(checkTable[..r], values).None?
        invariant errors == CheckErrors(checkTable[..r], values)
      {
        assert checkTable[..r + 1][..r] == checkTable[..r];
        var entry := checkTable[r];
        var check, command := entry.op.check.value, entry.op.command;
        if entry.queryIndex.None? {
          errors := errors + [Filed(entry.writeIndex, Verification(NoReadback(check.why), command, None, check.expected, None))];
        } else {
          var index := entry.queryIndex.value;
          var verdict := JudgeCheck(command, check, values[index]);
          if verdict.Escaped? {
            errors, escaped := [], Some(verdict.error);
            EscapeIsFinal(checkTable, values, r + 1);
            return;
          }
          if verdict.Refuted? {
            errors := errors + [Filed(index, verdict.error)];
          }
        }
      }
      assert checkTable[..|checkTable|] == checkTable;
    }

    /** The first verified write whose readback index is the failed index; both may be absent. */
    method FindBlamed(checkTable: seq<CheckEntry>, failed: Option<int>) returns (blamed: Option<CheckEntry>)
      ensures blamed == BlamedCheck(checkTable, failed)
    {
      blamed := None;
      for r := 0 to |checkTable|
        invariant blamed.None? && BlamedCheck(checkTable[..r], failed).None?
      {
        assert checkTable[..r + 1][..r] == checkTable[..r];
        if SameIndex(checkTable[r].queryIndex, failed) {
          blamed := Some(checkTable[r]);
          BlameIsFinal(checkTable, failed, r + 1);
          return;
        }
      }
      assert checkTable[..|checkTable|] == checkTable;
    }

    /** The except branch: the error is attributed, and every read is rejected with what is raised. */
    method FailBatch(ghost ops: seq<Op>, readTable: seq<ReadEntry>, checkTable: seq<CheckEntry>, e: Error)
      returns (raised: Error)
      requires Valid() && WellFormed(ops) && SlotsBelow(ops, |deferreds|)
      requires readTable == ReadTable(ops) && checkTable == CheckTable(ops)
      modifies deferreds
      ensures Valid() && Finished(Cells(), Some(raised)) == Finish(ops, Raised(e), old(Cells()))
    {
      ReadTableFits(ops, |deferreds|);
      CheckTableFits(ops);
      BlamedIsInTable(checkTable, BlamedIndex(e));
      var blamed := FindBlamed(checkTable, BlamedIndex(e));
      raised := e;
      if blamed.Some? && IsSouth(e) {
        var op := blamed.value.op;
        if !IsReadback(op) {
          return ASSERTION_ERROR;
        }
        raised := OutwardError(op.command, op.check.value, e);
      }
      RejectedCellsAgree(ops, raised, Cells());
      RejectAll(readTable, raised);
    }

    /** The rest of the engine: hand out the replies, verify the writes, pick the error to raise. */
    method CompleteBatch(ghost ops: seq<Op>, readTable: seq<ReadEntry>, checkTable: seq<CheckEntry>,
                         values: seq<Option<string>>)
      returns (raised: Option<Error>)
      requires Valid() && WellFormed(ops) && SlotsBelow(ops, |deferreds|) && |values| == |Flatten(ops)|
      requires readTable == ReadTable(ops) && checkTable == CheckTable(ops)
      modifies deferreds
      ensures Valid() && Finished(Cells(), raised) == Finish(ops, Values(values), old(Cells()))
    {
      ReadTableFits(ops, |deferreds|);
      CheckTableFits(ops);
      SettledCellsAgree(ops, values, Cells());
      EscapesAgree(ops, values);
      var readErrors := ResolveReads(readTable, values);
      var checkErrors, escaped := ConfirmWrites(checkTable, values);
      if escaped.Some? {
        return escaped;
      }
      FirstFiledLeads(ops, values);
      raised := PickError(readErrors, checkErrors, FirstFiled(ops, values), |Flatten(ops)|);
    }

    /** The error filed under the least command index. */
    method PickError(readErrors: seq<Filed>, checkErrors: seq<Filed>, ghost first: Option<Filed>, ghost bound: nat)
      returns (raised: Option<Error>)
      requires Leads(first, readErrors, checkErrors, bound)
      ensures raised == if first.Some? then Some(first.value.error) else None
    {
      var errors := readErrors + checkErrors;
      if errors == [] {
        return None;
      }
      var least := LeastFiled(errors);
      raised := Some(least.error);
    }

    /** _execute_pending_operations: compile, execute, settle every Deferred, and pick one error. */
    method ExecutePendingOperations(ops: seq<Op>) returns (raised: Option<Error>)
      requires Valid() && WellFormed(ops) && SlotsBelow(ops, |deferreds|)
      modifies this`world, deferreds
      ensures Valid()
      ensures (Model(), raised) == DM.ExecutePending(act, old(Model()), ops)
    {
      var commands, readTable, checkTable, refused := Compile(ops);
      if refused.Some? {
        return refused;
      }
      var (after, outcome) := act(world, commands);
      world := after;
      match outcome {
        case Raised(e) =>
          var outward := FailBatch(ops, readTable, checkTable, e);
          raised := Some(outward);
        case Values(values) =>
          raised := CompleteBatch(ops, readTable, checkTable, values);
      }
    }

    // ----- the calls of the driver; each runs while its thread holds the lock -----

    /** _should_verify_writes: the innermost override decides. */
    method ShouldVerifyWrites() returns (verify: bool)
      ensures verify == DM.ShouldVerify(Model())
    {
      if overrides != [] {
        return overrides[|overrides| - 1];
      }
      verify := globally;
    }

    /** _write */
    method DoWrite(t: DM.Thread, command: string, verification: Option<Check>, why: Option<string>)
      returns (raised: Option<Error>)
      requires Valid() && DM.CanAcquire(Model(), t)
      modifies this`world, this`pending, this`authors, deferreds
      ensures Valid() && (Model(), raised) == DM.DoWrite(act, old(Model()), t, command, verification, why)
    {
      var check := None;
      var verify := ShouldVerifyWrites();
      if verify {
        if verification.Some? {
          check := verification;
        } else {
          check := Some(Unavailable(Nothing, if why.Some? && why.value != "" then why.value else DM.NO_VERIFICATION));
        }
      }
      assert check == DM.SelectedCheck(Model(), verification, why);
      var op := WriteOp(command, check);
      if collecting {
        pending := pending + [op];
        authors := authors + [t];
        return None;
      }
      raised := ExecutePendingOperations([op]);
    }

    /** _queries: hand out a new Deferred; outside a batch, execute at once. */
    method DoRead(t: DM.Thread, texts: seq<string>, parser: seq<string> -> Result<Value, Error>)
      returns (deferred: Deferred, raised: Option<Error>)
      requires Valid() && DM.CanAcquire(Model(), t) && texts != []
      modifies this`world, this`pending, this`authors, this`handles, this`deferreds, deferreds
      ensures Valid() && (Model(), raised) == DM.DoRead(act, old(Model()), t, texts, parser)
      ensures fresh(deferred) && deferreds == old(deferreds) + [deferred]
    {
      deferred := new Deferred();
      var slot := |deferreds|;
      ghost var before := Cells();
      deferreds := deferreds + [deferred];
      assert Cells() == before + [PENDING];
      var op := ReadOp(texts, parser, slot);
      if collecting {
        pending := pending + [op];
        authors := authors + [t];
        handles := handles + [slot];
        return deferred, None;
      }
      raised := ExecutePendingOperations([op]);
    }

    /** What a query property returns: the Deferred in a batch, its value outside. */
    method Query(t: DM.Thread, texts: seq<string>, parser: seq<string> -> Result<Value, Error>)
      returns (deferred: Deferred, value: Option<Value>, raised: Option<Error>)
      requires Valid() && DM.CanAcquire(Model(), t) && texts != []
      modifies this`world, this`pending, this`authors, this`handles, this`deferreds, deferreds
      ensures Valid() && (Model(), raised) == DM.DoRead(act, old(Model()), t, texts, parser)
      ensures fresh(deferred) && deferreds == old(deferreds) + [deferred]
      ensures collecting || raised.Some? ==> value.None?
      ensures !collecting && raised.None? ==> value.Some? && deferred.error.None? && value == deferred.value
    {
      deferred, raised := DoRead(t, texts, parser);
      value := None;
      if !collecting && raised.None? {
        DR.ReadResolves(act, old(Model()), t, texts, parser);
        assert Cells()[|old(deferreds)|] == deferred.State();
        var r := deferred.Read();
        value := Some(r.value);
      }
    }

    /** _begin_batch: the lock is taken, and given back if a batch is already open. */
    method BeginBatch(t: DM.Thread) returns (raised: Option<Error>)
      requires Valid() && DM.CanAcquire(Model(), t)
      modifies this`holder, this`depth, this`collecting, this`pending, this`authors, this`handles
      ensures Valid() && (Model(), raised) == DM.BeginBatch(old(Model()), t)
    {
      Acquire(t);
      if collecting {
        Release();
        return Some(DM.NESTED_BATCH);
      }
      collecting, pending, authors, handles := true, [], [], [];
      raised := None;
    }

    /** responses.extend(deferred.value for deferred in deferreds) */
    method CollectResponses(slots: seq<nat>) returns (responses: seq<Value>)
      requires forall i :: 0 <= i < |slots| ==> slots[i] < |deferreds|
      requires forall i :: 0 <= i < |slots| ==> DR.ValuesAt(Cells(), slots)[i].Some?
      ensures DR.AllSome(responses) == DR.ValuesAt(Cells(), slots)
    {
      responses := [];
      for i := 0 to |slots|
        invariant DR.AllSome(responses) == DR.ValuesAt(Cells(), slots)[..i]
      {
        assert DR.ValuesAt(Cells(), slots)[i].Some?;
        var r := deferreds[slots[i]].Read();
        responses := responses + [r.value];
      }
    }

    /** _end_batch: the batch state is reset first; the lock is given back in any case. The responses are
        the values of the batch's Deferreds, in order, and none at all when something is raised. */
    method EndBatch(execute: bool) returns (responses: seq<Value>, raised: Option<Error>)
      requires Valid() && DM.Valid(Model()) && collecting
      modifies this`holder, this`depth, this`collecting, this`pending, this`authors, this`handles, this`world, deferreds
      ensures Valid() && (Model(), raised) == DM.EndBatch(act, old(Model()), execute)
      ensures !execute || raised.Some? ==> responses == []
      ensures execute && raised.None? ==> DR.AllSome(responses) == DR.ValuesAt(Model().cells, old(handles))
    {
      var ops, slots := pending, handles;
      SlotsAreBelow(ops, Cells());
      collecting, pending, authors, handles := false, [], [], [];
      responses, raised := [], None;
      if !execute {
        CancelAll(ops);
      } else if ops != [] {
        responses, raised := ExecuteAndCollect(ops, slots, old(Model()));
      }
      Release();
    }

    /** The execute branch of _end_batch, on the operations and handles of a batch just closed. */
    method ExecuteAndCollect(ops: seq<Op>, slots: seq<nat>, ghost before: DM.State<S>)
      returns (responses: seq<Value>, raised: Option<Error>)
      requires Valid() && DM.Valid(before) && before.collecting
      requires ops == before.pending != [] && slots == before.handles && SlotsBelow(ops, |deferreds|)
      requires Model() == before.(collecting := false, pending := [], authors := [], handles := [])
      modifies this`world, deferreds
      ensures Valid() && (Model(), raised) == DM.ExecutePending(act, old(Model()), ops)
      ensures raised.Some? ==> responses == []
      ensures raised.None? ==> DR.AllSome(responses) == DR.ValuesAt(Model().cells, slots)
    {
      responses := [];
      raised := ExecutePendingOperations(ops);
      if raised.None? {
        DR.ResponsesOfBatch(act, before);
        responses := CollectResponses(slots);
      }
    }

    method CancelAll(ops: seq<Op>)
      requires Valid() && SlotsBelow(ops, |deferreds|)
      modifies deferreds
      ensures Valid() && Cells() == DM.CancelReads(ops, old(Cells()))
    {
      for k := 0 to |ops|
        invariant Valid() && Cells() == DM.CancelReads(ops[..k], old(Cells()))
      {
        assert ops[..k + 1][..k] == ops[..k];
        if ops[k].ReadOp? {
          Settle(ops[k].slot, Failure(DM.CancelledError(ops[k].commands)));
        }
      }
      assert ops[..|ops|] == ops;
    }

    /** _begin_verify_writes */
    method BeginVerifyWrites(t: DM.Thread, enabled: bool)
      requires Valid() && DM.CanAcquire(Model(), t)
      modifies this`holder, this`depth, this`overrides
      ensures Valid() && Model() == DM.BeginVerify(old(Model()), t, enabled)
    {
      Acquire(t);
      overrides := overrides + [enabled];
    }

    /** _end_verify_writes */
    method EndVerifyWrites()
      requires Valid() && overrides != []
      modifies this`holder, this`depth, this`overrides
      ensures Valid() && Model() == DM.EndVerify(old(Model()))
    {
      overrides := overrides[..|overrides| - 1];
      Release();
    }

    /** _execute_raw_batch */
    method ExecuteRawBatch(t: DM.Thread, commands: seq<Command>)
      returns (values: seq<Option<string>>, raised: Option<Error>)
      requires Valid() && DM.CanAcquire(Model(), t)
      modifies this`world
      ensures Valid() && (Model(), raised) == DM.DoRaw(act, old(Model()), commands)
      ensures raised.None? ==> Values(values) == act(old(world), commands).1
    {
      values := [];
      if collecting {
        return [], Some(DM.RAW_IN_BATCH);
      }
      var verify := ShouldVerifyWrites();
      if verify {
        return [], Some(DM.RAW_VERIFIED);
      }
      var (after, outcome) := act(world, commands);
      world := after;
      match outcome {
        case Raised(e) => raised := Some(e);
        case Values(v) => values, raised := v, None;
      }
    }

    method Acquire(t: DM.Thread)
      requires DM.CanAcquire(Model(), t)
      modifies this`holder, this`depth
      ensures Model() == DM.Acquire(old(Model()), t)
    {
      holder, depth := Some(t), depth + 1;
    }

    method Release()
      modifies this`holder, this`depth
      ensures Model() == DM.Release(old(Model()))
    {
      if depth <= 1 {
        holder, depth := None, 0;
      } else {
        depth := depth - 1;
      }
    }
  }

  lemma {:induction false} SlotsAreBelow(ops: seq<Op>, cells: seq<Cell>)
    requires DM.Fresh(DM.SlotsOf(ops), cells)
    ensures SlotsBelow(ops, |cells|)
  {
    if ops != [] {
      DM.FreshPrefix(ops, cells);
      SlotsAreBelow(ops[..|ops| - 1], cells);
    }
  }

  lemma {:induction false} EscapeIsFinal(table: seq<CheckEntry>, values: seq<Option<string>>, k: nat)
    requires k <= |table| && EscapedCheck(table[..k], values).Some?
    ensures EscapedCheck(table, values) == EscapedCheck(table[..k], values)
    decreases |table|
  {
    if k == |table| {
      assert table[..k] == table;
    } else {
      assert table[..|table| - 1][..k] == table[..k];
      EscapeIsFinal(table[..|table| - 1], values, k);
    }
  }

  lemma {:induction false} BlameIsFinal(table: seq<CheckEntry>, failed: Option<int>, k: nat)
    requires k <= |table| && BlamedCheck(table[..k], failed).Some?
    ensures BlamedCheck(table, failed) == BlamedCheck(table[..k], failed)
    decreases |table|
  {
    if k == |table| {
      assert table[..k] == table;
    } else {
      assert table[..|table| - 1][..k] == table[..k];
      BlameIsFinal(table[..|table| - 1], failed, k);
    }
  }

}
