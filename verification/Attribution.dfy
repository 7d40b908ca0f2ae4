/** Which operation a failed execution is blamed on (driver.py, the except branch of the batch engine). */
module Attribution {

  import opened Wrappers
  import opened Errors
  import opened Commands
  import opened Devices
  import opened Compilation
  import opened Settlement

  predicate IsReadback(op: Op) {
    op.WriteOp? && op.check.Some? && op.check.value.Readback?
  }

  predicate IsUnqueryable(op: Op) {
    op.WriteOp? && op.check.Some? && op.check.value.Unavailable?
  }

  predicate AnyUnqueryable(ops: seq<Op>) {
    exists i :: 0 <= i < |ops| && IsUnqueryable(ops[i])
  }

  /** The operation a position of the flat list belongs to. */
  function Owner(ops: seq<Op>, i: nat): (k: nat)
    requires i < |Flatten(ops)|
    ensures k < |ops|
  {
    var prefix := ops[..|ops| - 1];
    if i < |Flatten(prefix)| then Owner(prefix, i) else |prefix|
  }

  lemma StartOfPrefix(ops: seq<Op>, k: nat)
    requires ops != [] && k < |ops|
    ensures Start(ops[..|ops| - 1], k) == Start(ops, k)
    ensures Start(ops, |ops| - 1) == |Flatten(ops[..|ops| - 1])|
  {
    assert ops[..|ops| - 1][..k] == ops[..k];
  }

  lemma StartOfAll(ops: seq<Op>)
    ensures Start(ops, |ops|) == |Flatten(ops)|
  {
    assert ops[..|ops|] == ops;
  }

  lemma {:induction false} OwnerRange(ops: seq<Op>, i: nat)
    requires i < |Flatten(ops)|
    ensures Start(ops, Owner(ops, i)) <= i < Start(ops, Owner(ops, i) + 1)
  {
    var prefix, k := ops[..|ops| - 1], Owner(ops, i);
    if i < |Flatten(prefix)| {
      OwnerRange(prefix, i);
      StartOfPrefix(ops, k);
      StartOfPrefix(ops, k + 1);
    } else {
      StartOfPrefix(ops, |prefix|);
      StartOfAll(ops);
    }
  }

  lemma OwnerHoldsPosition(ops: seq<Op>, i: nat)
    requires i < |Flatten(ops)|
    ensures
      var k := Owner(ops, i);
      && Start(ops, k) <= i < Start(ops, k + 1) == Start(ops, k) + |CommandsOf(ops[k])|
      && Flatten(ops)[i] == CommandsOf(ops[k])[i - Start(ops, k)]
  {
    var k := Owner(ops, i);
    OwnerRange(ops, i);
    NextStart(ops, k);
    CommandAt(ops, k, i - Start(ops, k));
  }

  /** Readback indexes stay below the length of the flat list, and an entry's operation is a verified
      write that has a readback exactly when the entry has a readback index. */
  lemma {:induction false} CheckTableShape(ops: seq<Op>)
    ensures forall r :: 0 <= r < |CheckTable(ops)| ==>
      var entry := CheckTable(ops)[r];
      && (entry.queryIndex.Some? ==> entry.queryIndex.value < |Flatten(ops)| && IsReadback(entry.op))
      && (entry.queryIndex.None? ==> IsUnqueryable(entry.op))
  {
    if ops != [] {
      CheckTableShape(ops[..|ops| - 1]);
    }
  }

  lemma {:induction false} BlamedIsInTable(table: seq<CheckEntry>, failed: Option<int>)
    ensures BlamedCheck(table, failed).Some? ==>
      BlamedCheck(table, failed).value in table && SameIndex(BlamedCheck(table, failed).value.queryIndex, failed)
    ensures BlamedCheck(table, failed).None? ==>
      forall r :: 0 <= r < |table| ==> !SameIndex(table[r].queryIndex, failed)
  {
    if table != [] {
      BlamedIsInTable(table[..|table| - 1], failed);
    }
  }

  lemma NoBlameBeyondTable(ops: seq<Op>, i: nat)
    requires |Flatten(ops)| <= i
    ensures BlamedCheck(CheckTable(ops), Some(i)).None?
  {
    CheckTableShape(ops);
    BlamedIsInTable(CheckTable(ops), Some(i));
  }

  lemma BlamedSnoc(table: seq<CheckEntry>, last: CheckEntry, failed: Option<int>)
    ensures BlamedCheck(table + [last], failed) ==
      if BlamedCheck(table, failed).Some? then BlamedCheck(table, failed)
      else if SameIndex(last.queryIndex, failed) then Some(last) else None
  {
    assert (table + [last])[..|table|] == table;
  }

  /** The verification entry an operation adds to those of the operations before it. */
  function EntryOf(op: Op, start: nat): seq<CheckEntry> {
    if op.ReadOp? || op.check.None? then []
    else [CheckEntry(op, start, if op.check.value.Readback? then Some(start + 1) else None)]
  }

  lemma CheckTableOfLast(ops: seq<Op>)
    requires ops != []
    ensures
      var prefix := ops[..|ops| - 1];
      CheckTable(ops) == CheckTable(prefix) + EntryOf(ops[|ops| - 1], |Flatten(prefix)|)
  {
    var prefix, last := ops[..|ops| - 1], ops[|ops| - 1];
    if EntryOf(last, |Flatten(prefix)|) == [] {
      assert CheckTable(ops) == CheckTable(prefix);
    }
  }

  /** A position of the flat list is blamed on a verification exactly when it is that write's readback. */
  lemma {:induction false} BlameOfPosition(ops: seq<Op>, i: nat)
    requires i < |Flatten(ops)|
    ensures
      var k := Owner(ops, i);
      BlamedCheck(CheckTable(ops), Some(i)) ==
      if IsReadback(ops[k]) && i == Start(ops, k) + 1 then Some(CheckEntry(ops[k], Start(ops, k), Some(i))) else None
  {
    var prefix, last := ops[..|ops| - 1], ops[|ops| - 1];
    CheckTableOfLast(ops);
    StartOfPrefix(ops, Owner(ops, i));
    var entry := EntryOf(last, |Flatten(prefix)|);
    if entry != [] {
      BlamedSnoc(CheckTable(prefix), entry[0], Some(i));
    }
    if i < |Flatten(prefix)| {
      BlameOfPosition(prefix, i);
    } else {
      NoBlameBeyondTable(prefix, i);
    }
  }

  predicate AnyWithoutReadback(table: seq<CheckEntry>) {
    exists r :: 0 <= r < |table| && table[r].queryIndex.None?
  }

  lemma AnyOfLast(ops: seq<Op>)
    requires ops != []
    ensures AnyUnqueryable(ops) <==> AnyUnqueryable(ops[..|ops| - 1]) || IsUnqueryable(ops[|ops| - 1])
  {
    var prefix := ops[..|ops| - 1];
    assert forall i :: 0 <= i < |prefix| ==> prefix[i] == ops[i];
  }

  lemma AnyOfSnoc(table: seq<CheckEntry>, entry: CheckEntry)
    ensures AnyWithoutReadback(table + [entry]) <==> AnyWithoutReadback(table) || entry.queryIndex.None?
  {
    assert (table + [entry])[|table|] == entry;
    assert forall r :: 0 <= r < |table| ==> (table + [entry])[r] == table[r];
  }

  /** A write that nothing can verify has an entry without a readback. */
  lemma {:induction false} UnqueryableHasEntry(ops: seq<Op>)
    ensures AnyUnqueryable(ops) <==> AnyWithoutReadback(CheckTable(ops))
  {
    if ops != [] {
      var prefix, last := ops[..|ops| - 1], ops[|ops| - 1];
      UnqueryableHasEntry(prefix);
      AnyOfLast(ops);
      if last.WriteOp? && last.check.Some? {
        var table := CheckTable(ops);
        AnyOfSnoc(CheckTable(prefix), table[|table| - 1]);
        assert table == CheckTable(prefix) + [table[|table| - 1]];
      }
    }
  }

  /** An execution error that names a position of the batch: when the position is the readback of a write
      the driver raises a verification error holding that write's command, query and expected value; any
      other write or user query re-raises the original error. All reads are rejected with what is raised. */
  lemma FailureIsAttributed(ops: seq<Op>, e: Error, cells: seq<Cell>, i: nat)
    requires e.South? && e.at.index == Some(i) && i < |Flatten(ops)|
    ensures
      var k := Owner(ops, i);
      var raised :=
        if IsReadback(ops[k]) && Flatten(ops)[i].Query? then
          Verification(QueryFailed(e), ops[k].command, Some(ops[k].check.value.query),
                       ops[k].check.value.expected, None)
        else e;
      Finish(ops, Raised(e), cells) == Finished(RejectReads(ops, raised, cells), Some(raised))
  {
    var k := Owner(ops, i);
    OwnerHoldsPosition(ops, i);
    BlameOfPosition(ops, i);
    assert IsReadback(ops[k]) ==> (CommandsOf(ops[k])[i - Start(ops, k)].Query? <==> i == Start(ops, k) + 1);
  }

  /** Errors that are not SPD3000Errors are raised as they are, whatever they name. */
  lemma OtherErrorsPassThrough(ops: seq<Op>, e: Error, cells: seq<Cell>)
    requires e.Gateway? || e.Foreign?
    ensures Finish(ops, Raised(e), cells) == Finished(RejectReads(ops, e, cells), Some(e))
  {
  }

  /** An SPD3000Error without an index reaches the caller, and the reads, exactly when the batch holds no
      unqueryable verified write. Otherwise the driver's own assertion takes its place and the Deferreds
      are left as they were. */
  lemma UnplacedErrorSurvives(ops: seq<Op>, e: Error, cells: seq<Cell>)
    requires e.South? && e.at.index.None?
    ensures !AnyUnqueryable(ops) <==> Finish(ops, Raised(e), cells).raised == Some(e)
    ensures !AnyUnqueryable(ops) ==> Finish(ops, Raised(e), cells).cells == RejectReads(ops, e, cells)
    ensures AnyUnqueryable(ops) ==> Finish(ops, Raised(e), cells) == Finished(cells, Some(ASSERTION_ERROR))
  {
    UnqueryableHasEntry(ops);
    CheckTableShape(ops);
    BlamedIsInTable(CheckTable(ops), None);
  }

  /** Locking the front panel, which nothing can read back, under verification. */
  function LockPanel(): seq<Op> {
    [WriteOp("*LOCK", Some(Unavailable(Nothing, "no query")))]
  }

  /** On a closed executor it raises the driver's own assertion instead of the connection error. */
  lemma ClosedErrorIsReplaced(cells: seq<Cell>)
    ensures Finish(LockPanel(), Raised(EXECUTOR_CLOSED), cells) == Finished(cells, Some(ASSERTION_ERROR))
  {
    assert IsUnqueryable(LockPanel()[0]);
    UnplacedErrorSurvives(LockPanel(), EXECUTOR_CLOSED, cells);
  }

}
