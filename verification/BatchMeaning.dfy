/** A batch means what its operations mean one at a time. */
module BatchMeaning {

  import opened Wrappers
  import opened Errors
  import opened Commands
  import opened Devices
  import opened Compilation
  import opened Settlement
  import opened Attribution

  /** What executing operations leaves: the instrument, the Deferreds, and the exception raised, if any. */
  datatype Effect<S> = Effect(world: S, cells: seq<Cell>, raised: Option<Error>)

  /** All operations in one batch. */
  function AsBatch<S>(dev: Device<S>, s: S, ops: seq<Op>, cells: seq<Cell>): Effect<S> {
    var run := RunCommands(dev, s, Flatten(ops));
    var finished := Finish(ops, OutcomeOf(run, Flatten(ops)), cells);
    Effect(run.world, finished.cells, finished.raised)
  }

  /** The operations one at a time, each its own batch, up to the first that raises. */
  function OneByOne<S>(dev: Device<S>, s: S, ops: seq<Op>, cells: seq<Cell>): Effect<S> {
    if ops == [] then Effect(s, cells, None)
    else
      var earlier := OneByOne(dev, s, ops[..|ops| - 1], cells);
      if earlier.raised.Some? then earlier else AsBatch(dev, earlier.world, [ops[|ops| - 1]], earlier.cells)
  }

  /** The first operation, in source order, that its own replies do not confirm. */
  function FirstUnconfirmed(ops: seq<Op>, values: seq<Option<string>>): Option<Error> {
    if ops == [] then None
    else
      var prefix := ops[..|ops| - 1];
      var earlier := FirstUnconfirmed(prefix, values);
      var verdict := Judge(ops[|ops| - 1], values, |Flatten(prefix)|);
      if earlier.Some? then earlier else if verdict.Confirmed? then None else Some(verdict.error)
  }

  lemma {:induction false} UnconfirmedIsRefutedOrEscaped(ops: seq<Op>, values: seq<Option<string>>)
    ensures FirstUnconfirmed(ops, values).None? <==>
      FirstRefuted(ops, values).None? && FirstEscaped(ops, values).None?
    ensures FirstEscaped(ops, values).None? ==> FirstUnconfirmed(ops, values) == FirstRefuted(ops, values)
  {
    if ops != [] {
      UnconfirmedIsRefutedOrEscaped(ops[..|ops| - 1], values);
    }
  }

  lemma PickOfPrefix(a: seq<Option<string>>, b: seq<Option<string>>, start: nat, length: nat)
    requires start + length <= |a|
    ensures Pick(a + b, Interval(start, length)) == Pick(a, Interval(start, length))
  {
  }

  lemma PickOfSuffix(a: seq<Option<string>>, b: seq<Option<string>>, length: nat)
    ensures Pick(a + b, Interval(|a|, length)) == Pick(b, Interval(0, length))
  {
  }

  lemma JudgeOfPrefix(op: Op, a: seq<Option<string>>, b: seq<Option<string>>, start: nat)
    requires start + |CommandsOf(op)| <= |a|
    ensures Judge(op, a + b, start) == Judge(op, a, start)
  {
    if op.ReadOp? {
      PickOfPrefix(a, b, start, |op.commands|);
    }
  }

  lemma JudgeOfSuffix(op: Op, a: seq<Option<string>>, b: seq<Option<string>>)
    requires |b| == |CommandsOf(op)|
    ensures Judge(op, a + b, |a|) == Judge(op, b, 0)
  {
    if op.ReadOp? {
      PickOfSuffix(a, b, |op.commands|);
    }
  }

  /** Operations look only at the replies to their own commands. */
  lemma {:induction false} OnlyOwnReplies(ops: seq<Op>, a: seq<Option<string>>, b: seq<Option<string>>, cells: seq<Cell>)
    requires |Flatten(ops)| <= |a|
    ensures FirstUnconfirmed(ops, a + b) == FirstUnconfirmed(ops, a)
    ensures SettleReads(ops, a + b, cells) == SettleReads(ops, a, cells)
  {
    if ops != [] {
      var prefix, op := ops[..|ops| - 1], ops[|ops| - 1];
      OnlyOwnReplies(prefix, a, b, cells);
      JudgeOfPrefix(op, a, b, |Flatten(prefix)|);
      if op.ReadOp? {
        PickOfPrefix(a, b, |Flatten(prefix)|, |op.commands|);
      }
    }
  }

  lemma SingleFlat(op: Op)
    ensures [op][..0] == [] && Flatten([op]) == CommandsOf(op) && Start([op], 0) == 0
  {
    assert [op][..0] == [];
    assert [] + CommandsOf(op) == CommandsOf(op);
  }

  /** One operation by itself, all of whose commands went through. */
  lemma SingleFinish(op: Op, values: seq<Option<string>>, cells: seq<Cell>)
    requires |values| == |CommandsOf(op)|
    ensures FirstUnconfirmed([op], values)
         == if Judge(op, values, 0).Confirmed? then None else Some(Judge(op, values, 0).error)
    ensures Finish([op], Values(values), cells).raised == FirstUnconfirmed([op], values)
    ensures Finish([op], Values(values), cells).cells
         == if op.ReadOp? then
              Put(cells, op.slot, Get(cells, op.slot).SettledBy(JudgeRead(op, Pick(values, Interval(0, |op.commands|)))))
            else cells
  {
    SingleFlat(op);
    assert FirstRefuted([], values) == None && FirstEscaped([], values) == None && FirstUnconfirmed([], values) == None;
    assert SettleReads([], values, cells) == cells;
  }

  /** As long as no command faults, the batch has executed what the one-by-one run executes, up to the
      first operation its own replies do not confirm. */
  lemma {:induction false} WithoutFault<S>(dev: Device<S>, s: S, ops: seq<Op>, cells: seq<Cell>)
    requires RunCommands(dev, s, Flatten(ops)).fault.None?
    ensures
      var run := RunCommands(dev, s, Flatten(ops));
      var each := OneByOne(dev, s, ops, cells);
      && each.raised == FirstUnconfirmed(ops, run.values)
      && (each.raised.None? ==> each.world == run.world && each.cells == SettleReads(ops, run.values, cells))
  {
    if ops != [] {
      var prefix, op := ops[..|ops| - 1], ops[|ops| - 1];
      RunOfAppend(dev, s, Flatten(prefix), CommandsOf(op));
      WithoutFault(dev, s, prefix, cells);
      var first := RunCommands(dev, s, Flatten(prefix));
      var own := RunCommands(dev, first.world, CommandsOf(op));
      OnlyOwnReplies(prefix, first.values, own.values, cells);
      JudgeOfSuffix(op, first.values, own.values);
      var each := OneByOne(dev, s, prefix, cells);
      if each.raised.None? {
        SingleFlat(op);
        SingleFinish(op, own.values, each.cells);
        if op.ReadOp? {
          PickOfSuffix(first.values, own.values, |op.commands|);
        }
      }
    }
  }

  lemma PrefixOfPrefix(ops: seq<Op>, k: nat)
    requires k < |ops|
    ensures ops[..|ops| - 1][..k] == ops[..k]
  {
  }

  /** Once an operation has raised, the one-by-one run is over. */
  lemma {:induction false} StoppedRunStays<S>(dev: Device<S>, s: S, ops: seq<Op>, cells: seq<Cell>, k: nat)
    requires k <= |ops| && OneByOne(dev, s, ops[..k], cells).raised.Some?
    ensures OneByOne(dev, s, ops, cells) == OneByOne(dev, s, ops[..k], cells)
    decreases |ops|
  {
    if k == |ops| {
      assert ops[..k] == ops;
    } else {
      PrefixOfPrefix(ops, k);
      StoppedRunStays(dev, s, ops[..|ops| - 1], cells, k);
    }
  }

  /** A faulting run went through all operations before the one that owns the faulting command, and then
      through that one's own commands up to the fault. */
  lemma {:induction false} FaultPosition<S>(dev: Device<S>, s: S, ops: seq<Op>)
    requires RunCommands(dev, s, Flatten(ops)).fault.Some?
    ensures
      var run := RunCommands(dev, s, Flatten(ops));
      var k := Owner(ops, |run.values|);
      var first := RunCommands(dev, s, Flatten(ops[..k]));
      var own := RunCommands(dev, first.world, CommandsOf(ops[k]));
      && first.fault.None? && own.fault == run.fault && own.world == run.world
      && run.values == first.values + own.values
  {
    var prefix, op := ops[..|ops| - 1], ops[|ops| - 1];
    RunOfAppend(dev, s, Flatten(prefix), CommandsOf(op));
    var first := RunCommands(dev, s, Flatten(prefix));
    if first.fault.Some? {
      FaultPosition(dev, s, prefix);
      PrefixOfPrefix(ops, Owner(prefix, |first.values|));
    }
  }

  /** What becomes of a fault at a command of an operation, filed under a command index of the batch. */
  function FaultRaised(op: Op, offset: nat, fault: Fault, index: nat): Error
    requires offset < |CommandsOf(op)|
  {
    var e := RaisedFor(fault, index, CommandsOf(op)[offset]);
    if IsReadback(op) && offset == 1 && e.South? then OutwardError(op.command, op.check.value, e) else e
  }

  /** The driver raises for a fault at a position what its owner makes of it. */
  lemma FaultIsRaised(ops: seq<Op>, fault: Fault, i: nat, cells: seq<Cell>)
    requires i < |Flatten(ops)|
    requires Start(ops, Owner(ops, i)) <= i < Start(ops, Owner(ops, i)) + |CommandsOf(ops[Owner(ops, i)])|
    ensures
      var k := Owner(ops, i);
      Finish(ops, Raised(RaisedFor(fault, i, Flatten(ops)[i])), cells).raised
      == Some(FaultRaised(ops[k], i - Start(ops, k), fault, i))
  {
    var e := RaisedFor(fault, i, Flatten(ops)[i]);
    var k := Owner(ops, i);
    OwnerHoldsPosition(ops, i);
    if e.South? {
      FailureIsAttributed(ops, e, cells, i);
      assert IsReadback(ops[k]) ==> (CommandsOf(ops[k])[i - Start(ops, k)].Query? <==> i - Start(ops, k) == 1);
    } else {
      OtherErrorsPassThrough(ops, e, cells);
    }
  }

  /** An operation by itself that faults. */
  lemma SingleFault<S>(dev: Device<S>, s: S, op: Op, cells: seq<Cell>)
    requires RunCommands(dev, s, CommandsOf(op)).fault.Some?
    ensures
      var own := RunCommands(dev, s, CommandsOf(op));
      && AsBatch(dev, s, [op], cells).world == own.world
      && AsBatch(dev, s, [op], cells).raised == Some(FaultRaised(op, |own.values|, own.fault.value, |own.values|))
  {
    var own := RunCommands(dev, s, CommandsOf(op));
    SingleFlat(op);
    assert Owner([op], |own.values|) == 0;
    FaultIsRaised([op], own.fault.value, |own.values|, cells);
  }

  /** A batch one of whose commands faults. The batch raises for the operation that owns the faulting
      command. The one-by-one run raises for the same operation, the position being counted from that
      operation's own first command, exactly when no earlier operation is left unconfirmed by its own
      replies; otherwise it raises for that earlier operation, which the batch never reports. */
  lemma BatchWithFault<S>(dev: Device<S>, s: S, ops: seq<Op>, cells: seq<Cell>)
    requires RunCommands(dev, s, Flatten(ops)).fault.Some?
    ensures
      var run := RunCommands(dev, s, Flatten(ops));
      var i := |run.values|;
      var k := Owner(ops, i);
      var earlier := FirstUnconfirmed(ops[..k], run.values);
      && Start(ops, k) <= i < Start(ops, k) + |CommandsOf(ops[k])|
      && AsBatch(dev, s, ops, cells).raised == Some(FaultRaised(ops[k], i - Start(ops, k), run.fault.value, i))
      && (earlier.Some? ==> OneByOne(dev, s, ops, cells).raised == earlier)
      && (earlier.None? ==>
            && OneByOne(dev, s, ops, cells).world == run.world
            && OneByOne(dev, s, ops, cells).raised
               == Some(FaultRaised(ops[k], i - Start(ops, k), run.fault.value, i - Start(ops, k))))
  {
    var run := RunCommands(dev, s, Flatten(ops));
    var i := |run.values|;
    var k := Owner(ops, i);
    OwnerHoldsPosition(ops, i);
    FaultIsRaised(ops, run.fault.value, i, cells);
    FaultPosition(dev, s, ops);
    var first := RunCommands(dev, s, Flatten(ops[..k]));
    var own := RunCommands(dev, first.world, CommandsOf(ops[k]));
    OnlyOwnReplies(ops[..k], first.values, own.values, cells);
    RunUpToFault(dev, s, ops, cells, k);
    assert i - Start(ops, k) == |own.values|;
  }

  /** One by one, with an operation k that faults once the ones before it have run. */
  lemma RunUpToFault<S>(dev: Device<S>, s: S, ops: seq<Op>, cells: seq<Cell>, k: nat)
    requires k < |ops| && RunCommands(dev, s, Flatten(ops[..k])).fault.None?
    requires RunCommands(dev, RunCommands(dev, s, Flatten(ops[..k])).world, CommandsOf(ops[k])).fault.Some?
    ensures
      var first := RunCommands(dev, s, Flatten(ops[..k]));
      var own := RunCommands(dev, first.world, CommandsOf(ops[k]));
      var earlier := FirstUnconfirmed(ops[..k], first.values);
      if earlier.Some? then OneByOne(dev, s, ops, cells).raised == earlier
      else
        && OneByOne(dev, s, ops, cells).world == own.world
        && OneByOne(dev, s, ops, cells).raised == Some(FaultRaised(ops[k], |own.values|, own.fault.value, |own.values|))
  {
    var first := RunCommands(dev, s, Flatten(ops[..k]));
    WithoutFault(dev, s, ops[..k], cells);
    var each := OneByOne(dev, s, ops[..k], cells);
    if each.raised.Some? {
      StoppedRunStays(dev, s, ops, cells, k);
    } else {
      SingleFault(dev, first.world, ops[k], each.cells);
      OneMoreFaults(dev, s, ops, cells, k);
    }
  }

  lemma OneMoreFaults<S>(dev: Device<S>, s: S, ops: seq<Op>, cells: seq<Cell>, k: nat)
    requires k < |ops| && OneByOne(dev, s, ops[..k], cells).raised.None?
    requires
      var each := OneByOne(dev, s, ops[..k], cells);
      AsBatch(dev, each.world, [ops[k]], each.cells).raised.Some?
    ensures
      var each := OneByOne(dev, s, ops[..k], cells);
      OneByOne(dev, s, ops, cells) == AsBatch(dev, each.world, [ops[k]], each.cells)
  {
    assert ops[..k + 1][..k] == ops[..k];
    StoppedRunStays(dev, s, ops, cells, k + 1);
  }

  /** A batch succeeds exactly when its operations, run one at a time from the same state, all succeed; and
      then the instrument and every Deferred end the same. */
  lemma BatchPreservesMeaning<S>(dev: Device<S>, s: S, ops: seq<Op>, cells: seq<Cell>)
    ensures AsBatch(dev, s, ops, cells).raised.None? <==> OneByOne(dev, s, ops, cells).raised.None?
    ensures AsBatch(dev, s, ops, cells).raised.None? ==> AsBatch(dev, s, ops, cells) == OneByOne(dev, s, ops, cells)
  {
    var run := RunCommands(dev, s, Flatten(ops));
    if run.fault.None? {
      WithoutFault(dev, s, ops, cells);
      UnconfirmedIsRefutedOrEscaped(ops, run.values);
    } else {
      BatchWithFault(dev, s, ops, cells);
    }
  }

  /** The first operation, in source order, whose readback's parser an exception escapes; |ops| if there is
      none. */
  function EscapeAt(ops: seq<Op>, values: seq<Option<string>>): (k: nat)
    ensures k <= |ops|
  {
    if ops == [] then 0
    else
      var prefix := ops[..|ops| - 1];
      var earlier := EscapeAt(prefix, values);
      if earlier < |prefix| then earlier
      else if Judge(ops[|ops| - 1], values, |Flatten(prefix)|).Escaped? then |prefix| else |ops|
  }

  /** One by one the operations before the escaping one come first. */
  lemma {:induction false} UnconfirmedByPlace(ops: seq<Op>, values: seq<Option<string>>)
    ensures FirstEscaped(ops, values).Some? <==> EscapeAt(ops, values) < |ops|
    ensures
      var refuted := FirstRefuted(ops[..EscapeAt(ops, values)], values);
      FirstUnconfirmed(ops, values) == if refuted.Some? then refuted else FirstEscaped(ops, values)
  {
    if ops != [] {
      var prefix, k := ops[..|ops| - 1], EscapeAt(ops, values);
      UnconfirmedByPlace(prefix, values);
      if k < |ops| {
        PrefixOfPrefix(ops, k);
      } else {
        assert ops[..k] == ops && prefix[..|prefix|] == prefix;
      }
    }
  }

  /** No operation before the one an exception escapes from is refuted; or the first that is raises an
      exception equal to the escaping one. */
  predicate EscapeLeads(ops: seq<Op>, values: seq<Option<string>>) {
    var refuted := FirstRefuted(ops[..EscapeAt(ops, values)], values);
    refuted.None? || refuted == FirstEscaped(ops, values)
  }

  /** When every command went through, the batch raises exactly what the one-by-one run raises if and only if
      no exception the driver does not handle escapes the parser of a readback, or none of the operations
      before the one it escapes from is refuted by its replies. */
  lemma BatchRaisesTheFirstError<S>(dev: Device<S>, s: S, ops: seq<Op>, cells: seq<Cell>)
    requires RunCommands(dev, s, Flatten(ops)).fault.None?
    ensures
      var values := RunCommands(dev, s, Flatten(ops)).values;
      && (FirstEscaped(ops, values).Some? ==> AsBatch(dev, s, ops, cells).raised == FirstEscaped(ops, values))
      && (AsBatch(dev, s, ops, cells).raised == OneByOne(dev, s, ops, cells).raised
          <==> FirstEscaped(ops, values).None? || EscapeLeads(ops, values))
  {
    var values := RunCommands(dev, s, Flatten(ops)).values;
    WithoutFault(dev, s, ops, cells);
    UnconfirmedIsRefutedOrEscaped(ops, values);
    UnconfirmedByPlace(ops, values);
  }

  /** The parsers of all readbacks fail with SPD3000Errors only, as those of the driver do. */
  ghost predicate ReadbacksFailSouth(ops: seq<Op>) {
    forall i :: 0 <= i < |ops| && IsReadback(ops[i]) ==> FailsSouth(ops[i].check.value.parser)
  }

  ghost predicate FailsSouth(parser: string -> Result<Value, Error>) {
    forall text :: parser(text).Failure? ==> IsSouth(parser(text).error)
  }

  /** Then no exception escapes, whatever the replies. */
  lemma {:induction false} NothingEscapes(ops: seq<Op>, values: seq<Option<string>>)
    requires ReadbacksFailSouth(ops)
    ensures FirstEscaped(ops, values).None?
  {
    if ops != [] {
      var prefix, last := ops[..|ops| - 1], ops[|ops| - 1];
      assert forall i :: 0 <= i < |prefix| ==> prefix[i] == ops[i];
      NothingEscapes(prefix, values);
      if IsReadback(last) {
        var reply := At(values, |Flatten(prefix)| + 1);
        assert FailsSouth(last.check.value.parser);
        if reply.Some? {
          assert last.check.value.parser(reply.value).Failure? ==> IsSouth(last.check.value.parser(reply.value).error);
        }
      }
    }
  }

  /** With such parsers a batch none of whose commands faults raises what the one-by-one run raises first. */
  lemma BatchKeepsTheError<S>(dev: Device<S>, s: S, ops: seq<Op>, cells: seq<Cell>)
    requires ReadbacksFailSouth(ops) && RunCommands(dev, s, Flatten(ops)).fault.None?
    ensures AsBatch(dev, s, ops, cells).raised == OneByOne(dev, s, ops, cells).raised
  {
    NothingEscapes(ops, RunCommands(dev, s, Flatten(ops)).values);
    BatchRaisesTheFirstError(dev, s, ops, cells);
  }

  /** An instrument that takes every write and answers every query with 0. */
  function AnswersZero(): Device<nat> {
    Device((s, line) => (s, None), s => (s, Bytes([48])))
  }

  lemma {:induction false} AnswersZeroNeverFaults(commands: seq<Command>)
    ensures RunCommands(AnswersZero(), 0, commands).fault.None? && RunCommands(AnswersZero(), 0, commands).world == 0
  {
    if commands != [] {
      AnswersZeroNeverFaults(commands[..|commands| - 1]);
      assert Exchange(AnswersZero(), 0, commands[|commands| - 1]).1.Success?;
    }
  }

  const LOST: Error := Foreign("ZeroDivisionError", "division by zero")

  /** A write that reads back as something else, then one whose parser raises a foreign exception. */
  function MismatchThenEscape(): seq<Op> {
    [WriteOp("A", Some(Readback("A?", Flag(true), _ => Success(Flag(false))))),
     WriteOp("B", Some(Readback("B?", Flag(true), _ => Failure(LOST))))]
  }

  lemma VerdictsOfEscape(values: seq<Option<string>>)
    requires |values| == 4 && values[1].Some? && values[3].Some?
    ensures FirstEscaped(MismatchThenEscape(), values) == Some(LOST)
    ensures FirstUnconfirmed(MismatchThenEscape(), values)
         == Some(Verification(Mismatch, "A", Some("A?"), Flag(true), Some(Flag(false))))
  {
    var ops := MismatchThenEscape();
    SingleFlat(ops[0]);
    assert ops[..1] == [ops[0]] && ops[..1][..0] == [];
    assert FirstUnconfirmed([], values).None? && FirstEscaped([], values).None?;
    assert Judge(ops[0], values, 0) == Refuted(Verification(Mismatch, "A", Some("A?"), Flag(true), Some(Flag(false))));
    assert Judge(ops[1], values, 2) == Escaped(LOST);
  }

  lemma CommandsOfEscape()
    ensures Flatten(MismatchThenEscape()) == [Write("A"), Query("A?"), Write("B"), Query("B?")]
  {
    var ops := MismatchThenEscape();
    SingleFlat(ops[0]);
    assert ops[..1] == [ops[0]];
  }

  /** An exception that escapes the parser of a later readback hides a mismatch. */
  lemma EscapeHidesMismatch()
    ensures AsBatch(AnswersZero(), 0, MismatchThenEscape(), []).raised == Some(LOST)
    ensures OneByOne(AnswersZero(), 0, MismatchThenEscape(), []).raised
         == Some(Verification(Mismatch, "A", Some("A?"), Flag(true), Some(Flag(false))))
  {
    var commands := Flatten(MismatchThenEscape());
    CommandsOfEscape();
    AnswersZeroNeverFaults(commands);
    VerdictsOfEscape(RunCommands(AnswersZero(), 0, commands).values);
    WithoutFault(AnswersZero(), 0, MismatchThenEscape(), []);
    BatchRaisesTheFirstError(AnswersZero(), 0, MismatchThenEscape(), []);
  }

  /** An instrument whose third write is refused and that answers every query with 0. */
  function RefusesThirdWrite(): Device<nat> {
    Device((s, line) => (s + 1, if s == 2 then Some(OsFailure("gone")) else None), s => (s, Bytes([48])))
  }

  /** A write that reads back as something else, then another write. */
  function MismatchThenWrite(): seq<Op> {
    [WriteOp("A", Some(Readback("A?", Flag(true), _ => Success(Flag(false))))), WriteOp("B", None)]
  }

  lemma RunOfMismatchThenWrite()
    ensures Flatten(MismatchThenWrite()) == [Write("A"), Query("A?"), Write("B")]
    ensures
      var run := RunCommands(RefusesThirdWrite(), 0, [Write("A"), Query("A?"), Write("B")]);
      run.fault == Some(OsFailure("gone")) && |run.values| == 2 && run.values[1].Some?
  {
    var ops, commands := MismatchThenWrite(), [Write("A"), Query("A?"), Write("B")];
    SingleFlat(ops[0]);
    assert ops[..1] == [ops[0]];
    assert commands[..2][..1] == [Write("A")] && commands[..2][..1][..0] == [];
    var dev := RefusesThirdWrite();
    assert RunCommands(dev, 0, commands[..2][..1]).world == 1;
    assert Exchange(dev, 1, Query("A?")).1.Success?;
    assert RunCommands(dev, 0, commands[..2]).world == 2;
  }

  lemma MismatchThenWriteIsValid()
    ensures AllValid(Flatten(MismatchThenWrite()))
  {
    RunOfMismatchThenWrite();
    SampleTextsAreValid();
  }

  lemma HiddenMismatch(run: Run<nat>)
    requires run == RunCommands(RefusesThirdWrite(), 0, Flatten(MismatchThenWrite()))
    requires run.fault == Some(OsFailure("gone")) && |run.values| == 2 && run.values[1].Some?
    ensures AsBatch(RefusesThirdWrite(), 0, MismatchThenWrite(), []).raised
         == Some(FaultRaised(WriteOp("B", None), 0, OsFailure("gone"), 2))
    ensures OneByOne(RefusesThirdWrite(), 0, MismatchThenWrite(), []).raised
         == FirstUnconfirmed(MismatchThenWrite()[..1], run.values)
  {
    MismatchIsFound(run.values);
    OwnerOfLastWrite();
    BatchWithFault(RefusesThirdWrite(), 0, MismatchThenWrite(), []);
  }

  /** A transport fault hides a mismatch that an earlier write of the same batch ran into. */
  lemma FaultHidesMismatch()
    ensures AllValid(Flatten(MismatchThenWrite()))
    ensures
      var raised := AsBatch(RefusesThirdWrite(), 0, MismatchThenWrite(), []).raised;
      raised.Some? && raised.value.South? && raised.value.cls == "SPD3000ConnectionError"
    ensures OneByOne(RefusesThirdWrite(), 0, MismatchThenWrite(), []).raised
         == Some(Verification(Mismatch, "A", Some("A?"), Flag(true), Some(Flag(false))))
  {
    var run := RunCommands(RefusesThirdWrite(), 0, Flatten(MismatchThenWrite()));
    MismatchThenWriteIsValid();
    RunOfMismatchThenWrite();
    HiddenMismatch(run);
    MismatchIsFound(run.values);
    LastWriteIsLost();
  }

  lemma LastWriteIsLost()
    ensures var e := FaultRaised(WriteOp("B", None), 0, OsFailure("gone"), 2);
      e.South? && e.cls == "SPD3000ConnectionError"
  {
  }

  lemma OwnerOfLastWrite()
    ensures Owner(MismatchThenWrite(), 2) == 1 && MismatchThenWrite()[1] == WriteOp("B", None)
  {
    var ops := MismatchThenWrite();
    SingleFlat(ops[0]);
    assert ops[..1] == [ops[0]];
  }

  lemma MismatchIsFound(values: seq<Option<string>>)
    requires |values| == 2 && values[1].Some?
    ensures FirstUnconfirmed(MismatchThenWrite()[..1], values)
         == Some(Verification(Mismatch, "A", Some("A?"), Flag(true), Some(Flag(false))))
  {
    var op := MismatchThenWrite()[0];
    assert MismatchThenWrite()[..1] == [op] && [op][..0] == [];
    assert FirstUnconfirmed([], values).None?;
    assert Judge(op, values, 0).Refuted?;
  }

  lemma SampleTextsAreValid()
    ensures TextError("A").None? && TextError("A?").None? && TextError("B").None?
  {
    assert !IsSpace("A"[0]) && !IsSpace("A?"[0]) && !IsSpace("B"[0]);
  }

}
