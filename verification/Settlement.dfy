/** What the driver makes of a batch's outcome: which Deferreds settle how, and which error is raised. */
module Settlement {

  import opened Wrappers
  import opened Errors
  import opened Commands
  import opened Devices
  import opened Compilation

  /** The state of a Deferred, with the number of times it has been settled. */
  datatype Cell = Cell(value: Option<Value>, error: Option<Error>, settlements: nat) {
    predicate Done() {
      value.Some? || error.Some?
    }

    function Resolve(v: Value): Cell {
      Cell(Some(v), error, settlements + 1)
    }

    function Reject(e: Error): Cell {
      Cell(value, Some(e), settlements + 1)
    }

    function SettledBy(verdict: Result<Value, Error>): Cell {
      match verdict
      case Success(v) => Resolve(v)
      case Failure(e) => Reject(e)
    }
  }

  const PENDING := Cell(None, None, 0)

  /** Every read's handle names one of the n Deferreds handed out so far. */
  predicate SlotsBelow(ops: seq<Op>, n: nat) {
    forall i :: 0 <= i < |ops| && ops[i].ReadOp? ==> ops[i].slot < n
  }

  /** cells with what is at slot, if anything is, replaced. */
  function Put(cells: seq<Cell>, slot: nat, cell: Cell): (r: seq<Cell>)
    ensures |r| == |cells|
  {
    if slot < |cells| then cells[slot := cell] else cells
  }

  function Get(cells: seq<Cell>, slot: nat): Cell {
    if slot < |cells| then cells[slot] else PENDING
  }

  /** The reply at an index of a result; an index beyond the result has none. */
  function At(values: seq<Option<string>>, i: nat): Option<string> {
    if i < |values| then values[i] else None
  }

  function Pick(values: seq<Option<string>>, indexes: seq<nat>): seq<Option<string>> {
    seq(|indexes|, i requires 0 <= i < |indexes| => At(values, indexes[i]))
  }

  predicate AllAnswered(replies: seq<Option<string>>) {
    forall i :: 0 <= i < |replies| ==> replies[i].Some?
  }

  function Answers(replies: seq<Option<string>>): seq<string>
    requires AllAnswered(replies)
  {
    seq(|replies|, i requires 0 <= i < |replies| => replies[i].value)
  }

  /** The text naming a read in messages. */
  function Label(texts: seq<string>): string {
    if texts == [] then ""
    else if |texts| == 1 then texts[0]
    else Label(texts[..|texts| - 1]) + "; " + texts[|texts| - 1]
  }

  function NoResponse(texts: seq<string>): Error {
    ProtocolError("Query '" + Label(texts) + "' returned no response")
  }

  /** What a read makes of the replies to its queries. */
  function JudgeRead(op: Op, replies: seq<Option<string>>): Result<Value, Error> {
    if op.WriteOp? then Success(Nothing)
    else if AllAnswered(replies) then op.parser(Answers(replies))
    else Failure(NoResponse(op.commands))
  }

  /** Confirmed, refuted with an error, or left by an exception the driver does not handle. */
  datatype Verdict = Confirmed | Refuted(error: Error) | Escaped(error: Error)

  function VerdictOf(result: Result<Value, Error>): Verdict {
    if result.Success? then Confirmed else Refuted(result.error)
  }

  /** What the driver makes of the reply to a readback, or of there being none to ask for. */
  function JudgeCheck(command: string, check: Check, reply: Option<string>): Verdict {
    match check
    case Unavailable(expected, why) => Refuted(Verification(NoReadback(why), command, None, expected, None))
    case Readback(query, expected, parser) =>
      match reply
      case None => Refuted(Verification(NoReply, command, Some(query), expected, None))
      case Some(text) =>
        match parser(text)
        case Failure(e) =>
          if IsSouth(e) then Refuted(Verification(Unusable(e), command, Some(query), expected, Some(Text(text))))
          else Escaped(e)
        case Success(actual) =>
          if actual != expected then Refuted(Verification(Mismatch, command, Some(query), expected, Some(actual)))
          else Confirmed
  }

  // ----- operation by operation -----

  /** Whether an operation whose commands start at an index is satisfied with the replies there. */
  function Judge(op: Op, values: seq<Option<string>>, start: nat): Verdict {
    match op
    case ReadOp(texts, _, _) => VerdictOf(JudgeRead(op, Pick(values, Interval(start, |texts|))))
    case WriteOp(command, check) =>
      if check.None? then Confirmed else JudgeCheck(command, check.value, At(values, start + 1))
  }

  /** The cells after every read of the batch has been resolved or rejected by its own replies. */
  function SettleReads(ops: seq<Op>, values: seq<Option<string>>, cells: seq<Cell>): (r: seq<Cell>)
    ensures |r| == |cells|
  {
    if ops == [] then cells
    else
      var prefix, op := ops[..|ops| - 1], ops[|ops| - 1];
      var earlier := SettleReads(prefix, values, cells);
      if op.ReadOp? then
        var verdict := JudgeRead(op, Pick(values, Interval(|Flatten(prefix)|, |op.commands|)));
        Put(earlier, op.slot, Get(earlier, op.slot).SettledBy(verdict))
      else earlier
  }

  /** The cells after every read of the batch has been rejected with e. */
  function RejectReads(ops: seq<Op>, e: Error, cells: seq<Cell>): (r: seq<Cell>)
    ensures |r| == |cells|
  {
    if ops == [] then cells
    else
      var op := ops[|ops| - 1];
      var earlier := RejectReads(ops[..|ops| - 1], e, cells);
      if op.ReadOp? then Put(earlier, op.slot, Get(earlier, op.slot).Reject(e)) else earlier
  }

  /** The error of the first operation, in source order, that is refuted by its own replies. */
  function FirstRefuted(ops: seq<Op>, values: seq<Option<string>>): Option<Error> {
    if ops == [] then None
    else
      var prefix := ops[..|ops| - 1];
      var earlier := FirstRefuted(prefix, values);
      var verdict := Judge(ops[|ops| - 1], values, |Flatten(prefix)|);
      if earlier.Some? then earlier else if verdict.Refuted? then Some(verdict.error) else None
  }

  /** The first exception, in source order, that escapes the parser of a readback. */
  function FirstEscaped(ops: seq<Op>, values: seq<Option<string>>): Option<Error> {
    if ops == [] then None
    else
      var prefix := ops[..|ops| - 1];
      var earlier := FirstEscaped(prefix, values);
      var verdict := Judge(ops[|ops| - 1], values, |Flatten(prefix)|);
      if earlier.Some? then earlier else if verdict.Escaped? then Some(verdict.error) else None
  }

  predicate SameIndex(mine: Option<nat>, failed: Option<int>) {
    || (mine.None? && failed.None?)
    || (mine.Some? && failed.Some? && mine.value == failed.value)
  }

  /** The first entry of the check table whose readback index is the failed index. Both may be absent. */
  function BlamedCheck(table: seq<CheckEntry>, failed: Option<int>): Option<CheckEntry> {
    if table == [] then None
    else
      var earlier := BlamedCheck(table[..|table| - 1], failed);
      var last := table[|table| - 1];
      if earlier.Some? then earlier else if SameIndex(last.queryIndex, failed) then Some(last) else None
  }

  /** The exception that takes the place of an execution error when a readback is to blame for it. */
  function OutwardError(command: string, check: Check, e: Error): Error
    requires check.Readback?
  {
    Verification(QueryFailed(e), command, Some(check.query), check.expected, None)
  }

  datatype Finished = Finished(cells: seq<Cell>, raised: Option<Error>)

  /** Everything _execute_pending_operations does once the executor has answered or raised. */
  function Finish(ops: seq<Op>, outcome: Outcome, cells: seq<Cell>): (r: Finished)
    ensures |r.cells| == |cells|
  {
    match outcome
    case Values(values) =>
      var escaped := FirstEscaped(ops, values);
      Finished(SettleReads(ops, values, cells), if escaped.Some? then escaped else FirstRefuted(ops, values))
    case Raised(e) =>
      var blamed := BlamedCheck(CheckTable(ops), BlamedIndex(e));
      if blamed.Some? && IsSouth(e) then
        match blamed.value.op
        case WriteOp(command, Some(Readback(query, expected, parser))) =>
          var outward := OutwardError(command, Readback(query, expected, parser), e);
          Finished(RejectReads(ops, outward, cells), Some(outward))
        case _ =>
          // The driver asserts that the blamed write has a readback, and the Deferreds stay as they are.
          Finished(cells, Some(ASSERTION_ERROR))
      else
        Finished(RejectReads(ops, e, cells), Some(e))
  }

  // ----- table by table, as the loops go -----

  function SettleTable(table: seq<ReadEntry>, values: seq<Option<string>>, cells: seq<Cell>): (r: seq<Cell>)
    ensures |r| == |cells|
  {
    if table == [] then cells
    else
      var entry := table[|table| - 1];
      var earlier := SettleTable(table[..|table| - 1], values, cells);
      if entry.op.WriteOp? then earlier
      else
        var verdict := JudgeRead(entry.op, Pick(values, entry.indexes));
        Put(earlier, entry.op.slot, Get(earlier, entry.op.slot).SettledBy(verdict))
  }

  function RejectTable(table: seq<ReadEntry>, e: Error, cells: seq<Cell>): (r: seq<Cell>)
    ensures |r| == |cells|
  {
    if table == [] then cells
    else
      var op := table[|table| - 1].op;
      var earlier := RejectTable(table[..|table| - 1], e, cells);
      if op.WriteOp? then earlier else Put(earlier, op.slot, Get(earlier, op.slot).Reject(e))
  }

  /** An error with the command index it is filed under. */
  datatype Filed = Filed(index: nat, error: Error)

  function ReadErrors(table: seq<ReadEntry>, values: seq<Option<string>>): seq<Filed> {
    if table == [] then []
    else
      var entry := table[|table| - 1];
      var earlier := ReadErrors(table[..|table| - 1], values);
      var verdict := JudgeRead(entry.op, Pick(values, entry.indexes));
      if verdict.Failure? && entry.indexes != [] then earlier + [Filed(entry.indexes[0], verdict.error)] else earlier
  }

  function JudgeEntry(entry: CheckEntry, values: seq<Option<string>>): Verdict {
    if entry.op.ReadOp? || entry.op.check.None? then Confirmed
    else
      JudgeCheck(entry.op.command, entry.op.check.value,
                 if entry.queryIndex.Some? then At(values, entry.queryIndex.value) else None)
  }

  function FilingIndex(entry: CheckEntry): nat {
    if entry.queryIndex.Some? then entry.queryIndex.value else entry.writeIndex
  }

  function CheckErrors(table: seq<CheckEntry>, values: seq<Option<string>>): seq<Filed> {
    if table == [] then []
    else
      var entry := table[|table| - 1];
      var earlier := CheckErrors(table[..|table| - 1], values);
      var verdict := JudgeEntry(entry, values);
      if verdict.Refuted? then earlier + [Filed(FilingIndex(entry), verdict.error)] else earlier
  }

  function EscapedCheck(table: seq<CheckEntry>, values: seq<Option<string>>): Option<Error> {
    if table == [] then None
    else
      var earlier := EscapedCheck(table[..|table| - 1], values);
      var verdict := JudgeEntry(table[|table| - 1], values);
      if earlier.Some? then earlier else if verdict.Escaped? then Some(verdict.error) else None
  }

  // ----- the two views agree -----

  lemma {:induction false} SettledCellsAgree(ops: seq<Op>, values: seq<Option<string>>, cells: seq<Cell>)
    ensures SettleTable(ReadTable(ops), values, cells) == SettleReads(ops, values, cells)
  {
    if ops != [] {
      SettledCellsAgree(ops[..|ops| - 1], values, cells);
      LastEntries(ops);
    }
  }

  lemma {:induction false} RejectedCellsAgree(ops: seq<Op>, e: Error, cells: seq<Cell>)
    ensures RejectTable(ReadTable(ops), e, cells) == RejectReads(ops, e, cells)
  {
    if ops != [] {
      RejectedCellsAgree(ops[..|ops| - 1], e, cells);
      LastEntries(ops);
    }
  }

  lemma {:induction false} EscapesAgree(ops: seq<Op>, values: seq<Option<string>>)
    ensures EscapedCheck(CheckTable(ops), values) == FirstEscaped(ops, values)
  {
    if ops != [] {
      EscapesAgree(ops[..|ops| - 1], values);
      LastEntries(ops);
      LastVerdict(ops, values);
    }
  }

  lemma LastEntries(ops: seq<Op>)
    requires ops != []
    ensures
      var prefix, op := ops[..|ops| - 1], ops[|ops| - 1];
      && (op.ReadOp? ==>
            && ReadTable(ops)[..|ReadTable(ops)| - 1] == ReadTable(prefix)
            && CheckTable(ops) == CheckTable(prefix))
      && (op.WriteOp? ==> ReadTable(ops) == ReadTable(prefix))
      && (op.WriteOp? && op.check.Some? ==> CheckTable(ops)[..|CheckTable(ops)| - 1] == CheckTable(prefix))
      && (op.WriteOp? && op.check.None? ==> CheckTable(ops) == CheckTable(prefix))
  {
  }

  lemma LastVerdict(ops: seq<Op>, values: seq<Option<string>>)
    requires ops != []
    ensures
      var prefix, op := ops[..|ops| - 1], ops[|ops| - 1];
      && (op.ReadOp? ==> !Judge(op, values, |Flatten(prefix)|).Escaped?)
      && (op.WriteOp? && op.check.None? ==> Judge(op, values, |Flatten(prefix)|).Confirmed?)
      && (op.WriteOp? && op.check.Some? ==>
            JudgeEntry(CheckTable(ops)[|CheckTable(ops)| - 1], values) == Judge(op, values, |Flatten(prefix)|))
  {
  }

  /** How far into an operation's own commands its error is filed. */
  function FilingOffset(op: Op): nat {
    if op.WriteOp? && op.check.Some? && op.check.value.Readback? then 1 else 0
  }

  /** The first refuted operation's error, with the index it is filed under. */
  function FirstFiled(ops: seq<Op>, values: seq<Option<string>>): (r: Option<Filed>)
    ensures r.Some? == FirstRefuted(ops, values).Some?
    ensures r.Some? ==> r.value.error == FirstRefuted(ops, values).value
  {
    if ops == [] then None
    else
      var prefix, op := ops[..|ops| - 1], ops[|ops| - 1];
      var earlier := FirstFiled(prefix, values);
      var verdict := Judge(op, values, |Flatten(prefix)|);
      if earlier.Some? then earlier
      else if verdict.Refuted? then Some(Filed(|Flatten(prefix)| + FilingOffset(op), verdict.error)) else None
  }

  /** The last operation's error, if it is refuted, filed in its own range. */
  function OwnError(ops: seq<Op>, values: seq<Option<string>>): seq<Filed>
    requires ops != []
  {
    var prefix, op := ops[..|ops| - 1], ops[|ops| - 1];
    var verdict := Judge(op, values, |Flatten(prefix)|);
    if verdict.Refuted? then [Filed(|Flatten(prefix)| + FilingOffset(op), verdict.error)] else []
  }

  /** What the loop over the reads collects from the last operation. */
  lemma LastReadErrors(ops: seq<Op>, values: seq<Option<string>>)
    requires WellFormed(ops) && ops != []
    ensures ReadErrors(ReadTable(ops), values)
         == ReadErrors(ReadTable(ops[..|ops| - 1]), values)
            + (if ops[|ops| - 1].ReadOp? then OwnError(ops, values) else [])
  {
    LastEntries(ops);
    var earlier := ReadErrors(ReadTable(ops[..|ops| - 1]), values);
    if ops[|ops| - 1].ReadOp? {
      var entry := ReadTable(ops)[|ReadTable(ops)| - 1];
      assert entry.indexes[0] == |Flatten(ops[..|ops| - 1])|;
      var verdict := JudgeRead(entry.op, Pick(values, entry.indexes));
      assert Judge(entry.op, values, |Flatten(ops[..|ops| - 1])|) == VerdictOf(verdict);
    }
    assert earlier + [] == earlier;
  }

  /** What the loop over the verified writes collects from the last operation. */
  lemma LastCheckErrors(ops: seq<Op>, values: seq<Option<string>>)
    requires ops != []
    ensures CheckErrors(CheckTable(ops), values)
         == CheckErrors(CheckTable(ops[..|ops| - 1]), values)
            + (if ops[|ops| - 1].ReadOp? then [] else OwnError(ops, values))
  {
    LastEntries(ops);
    LastVerdict(ops, values);
    var earlier := CheckErrors(CheckTable(ops[..|ops| - 1]), values);
    assert earlier + [] == earlier;
  }

  /** first is filed in one of the lists, under a smaller index than everything else, all below bound. */
  ghost predicate Leads(first: Option<Filed>, a: seq<Filed>, b: seq<Filed>, bound: nat) {
    && (first.None? ==> a == [] && b == [])
    && (first.Some? ==> first.value in a || first.value in b)
    && (forall i :: 0 <= i < |a| ==>
          a[i].index < bound && first.Some? && (a[i] == first.value || first.value.index < a[i].index))
    && (forall i :: 0 <= i < |b| ==>
          b[i].index < bound && first.Some? && (b[i] == first.value || first.value.index < b[i].index))
  }

  lemma LeadsNext(first: Option<Filed>, a: seq<Filed>, b: seq<Filed>, own: Filed, inA: bool, low: nat, high: nat)
    requires Leads(first, a, b, low) && low <= own.index < high
    ensures Leads(if first.Some? then first else Some(own),
                  if inA then a + [own] else a, if inA then b else b + [own], high)
  {
    assert (a + [own])[|a|] == own && (b + [own])[|b|] == own;
  }

  /** Errors are filed under their own operation's range, so the first refuted operation, in source order,
      has the strictly smallest index of all collected errors. */
  lemma {:induction false} FirstFiledLeads(ops: seq<Op>, values: seq<Option<string>>)
    requires WellFormed(ops)
    ensures Leads(FirstFiled(ops, values), ReadErrors(ReadTable(ops), values),
                  CheckErrors(CheckTable(ops), values), |Flatten(ops)|)
  {
    if ops != [] {
      var prefix, op := ops[..|ops| - 1], ops[|ops| - 1];
      FirstFiledLeads(prefix, values);
      LastReadErrors(ops, values);
      LastCheckErrors(ops, values);
      LastFiled(ops, values);
      LeadsOn(FirstFiled(prefix, values), ReadErrors(ReadTable(prefix), values), CheckErrors(CheckTable(prefix), values),
              OwnError(ops, values), op.ReadOp?, |Flatten(prefix)|, |Flatten(ops)|);
    }
  }

  lemma LastFiled(ops: seq<Op>, values: seq<Option<string>>)
    requires WellFormed(ops) && ops != []
    ensures
      var prefix, own := ops[..|ops| - 1], OwnError(ops, values);
      && FirstFiled(ops, values) == LeaderOf(FirstFiled(prefix, values), own)
      && |own| <= 1 && |Flatten(prefix)| <= |Flatten(ops)|
      && (own != [] ==> |Flatten(prefix)| <= own[0].index < |Flatten(ops)|)
  {
  }

  function LeaderOf(first: Option<Filed>, own: seq<Filed>): Option<Filed> {
    if first.Some? || own == [] then first else Some(own[0])
  }

  lemma LeadsOn(first: Option<Filed>, a: seq<Filed>, b: seq<Filed>, own: seq<Filed>, inA: bool, low: nat, high: nat)
    requires Leads(first, a, b, low) && low <= high && |own| <= 1
    requires own != [] ==> low <= own[0].index < high
    ensures Leads(LeaderOf(first, own), a + if inA then own else [], b + if inA then [] else own, high)
  {
    if own != [] {
      LeadsNext(first, a, b, own[0], inA, low, high);
      assert own == [own[0]];
    }
    assert a + [] == a && b + [] == b;
  }

  /** min(errors, key=index): the first of the errors filed under the smallest index. */
  method LeastFiled(errors: seq<Filed>) returns (least: Filed)
    requires errors != []
    ensures least in errors
    ensures forall f :: f in errors ==> least.index <= f.index
  {
    least := errors[0];
    for i := 1 to |errors|
      invariant least in errors
      invariant forall j :: 0 <= j < i ==> least.index <= errors[j].index
    {
      if errors[i].index < least.index {
        least := errors[i];
      }
    }
  }

}
