/** Compiling pending operations into one flat command list and its index tables (driver.py). */
module Compilation {

  import opened Wrappers
  import opened Errors
  import opened Commands

  /** How a write is confirmed: by reading it back, or not at all. */
  datatype Check =
    | Readback(query: string, expected: Value, parser: string -> Result<Value, Error>)
    | Unavailable(expected: Value, why: string)

  /** A queued operation. slot is the handle of the Deferred the read was given. */
  datatype Op =
    | WriteOp(command: string, check: Option<Check>)
    | ReadOp(commands: seq<string>, parser: seq<string> -> Result<Value, Error>, slot: nat)

  /** Every read asks at least one query: the only callers pass a literal tuple or one command. */
  predicate WellFormed(ops: seq<Op>) {
    forall i :: 0 <= i < |ops| && ops[i].ReadOp? ==> ops[i].commands != []
  }

  datatype ReadEntry = ReadEntry(op: Op, indexes: seq<nat>)

  datatype CheckEntry = CheckEntry(op: Op, writeIndex: nat, queryIndex: Option<nat>)

  function QueriesOf(texts: seq<string>): seq<Command> {
    seq(|texts|, i requires 0 <= i < |texts| => Query(texts[i]))
  }

  function CommandsOf(op: Op): seq<Command> {
    match op
    case ReadOp(commands, _, _) => QueriesOf(commands)
    case WriteOp(command, check) =>
      if check.Some? && check.value.Readback? then [Write(command), Query(check.value.query)]
      else [Write(command)]
  }

  /** The flat command list of a batch. */
  function Flatten(ops: seq<Op>): seq<Command> {
    if ops == [] then [] else Flatten(ops[..|ops| - 1]) + CommandsOf(ops[|ops| - 1])
  }

  function Interval(start: nat, length: nat): seq<nat> {
    seq(length, i => start + i)
  }

  /** The table of reads: each with the indexes of its own queries in the flat list. */
  function ReadTable(ops: seq<Op>): seq<ReadEntry> {
    if ops == [] then []
    else
      var prefix, op := ops[..|ops| - 1], ops[|ops| - 1];
      if op.ReadOp? then ReadTable(prefix) + [ReadEntry(op, Interval(|Flatten(prefix)|, |op.commands|))]
      else ReadTable(prefix)
  }

  /** The table of writes to verify: each with its own index and that of its readback, if it has one. */
  function CheckTable(ops: seq<Op>): seq<CheckEntry> {
    if ops == [] then []
    else
      var prefix, op := ops[..|ops| - 1], ops[|ops| - 1];
      if op.WriteOp? && op.check.Some? then
        var at := |Flatten(prefix)|;
        CheckTable(prefix) + [CheckEntry(op, at, if op.check.value.Readback? then Some(at + 1) else None)]
      else CheckTable(prefix)
  }

  /** Where operation k of a batch starts in the flat list. */
  function Start(ops: seq<Op>, k: nat): nat
    requires k <= |ops|
  {
    |Flatten(ops[..k])|
  }

  lemma StartNext(ops: seq<Op>, k: nat)
    requires k < |ops|
    ensures ops[..k + 1][..k] == ops[..k]
    ensures Flatten(ops[..k + 1]) == Flatten(ops[..k]) + CommandsOf(ops[k])
    ensures Start(ops, k + 1) == Start(ops, k) + |CommandsOf(ops[k])|
  {
    assert ops[..k + 1][..k] == ops[..k];
  }

  lemma NextStart(ops: seq<Op>, k: nat)
    requires k < |ops|
    ensures Start(ops, k + 1) == Start(ops, k) + |CommandsOf(ops[k])|
  {
    StartNext(ops, k);
  }

  lemma {:induction false} FlattenPrefix(ops: seq<Op>, k: nat)
    requires k <= |ops|
    ensures Start(ops, k) <= |Flatten(ops)| && Flatten(ops)[..Start(ops, k)] == Flatten(ops[..k])
    decreases |ops| - k
  {
    if k == |ops| {
      assert ops[..k] == ops;
    } else {
      FlattenPrefix(ops, k + 1);
      StartNext(ops, k);
      assert Flatten(ops)[..Start(ops, k)] == Flatten(ops)[..Start(ops, k + 1)][..Start(ops, k)];
    }
  }

  /** The ranges [Start(k), Start(k + 1)) cut the flat list into the operations' own commands: they follow
      each other without gap or overlap, in source order, and the last one ends the list. */
  lemma RangesCoverFlatList(ops: seq<Op>, k: nat)
    requires k < |ops|
    ensures Start(ops, 0) == 0 && Start(ops, |ops|) == |Flatten(ops)|
    ensures Start(ops, k) <= Start(ops, k + 1) <= |Flatten(ops)|
    ensures Flatten(ops)[Start(ops, k)..Start(ops, k + 1)] == CommandsOf(ops[k])
  {
    FlattenPrefix(ops, k + 1);
    StartNext(ops, k);
    assert ops[..|ops|] == ops;
    assert Flatten(ops)[Start(ops, k)..Start(ops, k + 1)] == Flatten(ops)[..Start(ops, k + 1)][Start(ops, k)..];
  }

  lemma CommandAt(ops: seq<Op>, k: nat, i: nat)
    requires k < |ops| && i < |CommandsOf(ops[k])|
    ensures Start(ops, k) + i < |Flatten(ops)| && Flatten(ops)[Start(ops, k) + i] == CommandsOf(ops[k])[i]
  {
    RangesCoverFlatList(ops, k);
    NextStart(ops, k);
    assert Flatten(ops)[Start(ops, k)..Start(ops, k + 1)][i] == CommandsOf(ops[k])[i];
  }

  lemma {:induction false} TablePrefixes(ops: seq<Op>, k: nat)
    requires k <= |ops|
    ensures ReadTable(ops[..k]) <= ReadTable(ops) && CheckTable(ops[..k]) <= CheckTable(ops)
    decreases |ops|
  {
    if k == |ops| {
      assert ops[..k] == ops;
    } else {
      assert ops[..|ops| - 1][..k] == ops[..k];
      TablePrefixes(ops[..|ops| - 1], k);
    }
  }

  /** The read table has one entry per read, in source order. A read's indexes are consecutive and point
      at its own queries in the flat list. */
  lemma ReadIndexesPointHome(ops: seq<Op>, k: nat)
    requires k < |ops| && ops[k].ReadOp?
    ensures |ReadTable(ops[..k + 1])| == |ReadTable(ops[..k])| + 1 <= |ReadTable(ops)|
    ensures
      var entry := ReadTable(ops)[|ReadTable(ops[..k])|];
      && entry.op == ops[k] && entry.indexes == Interval(Start(ops, k), |ops[k].commands|)
      && forall i :: 0 <= i < |entry.indexes| ==>
           entry.indexes[i] < |Flatten(ops)| && Flatten(ops)[entry.indexes[i]] == Query(ops[k].commands[i])
  {
    StartNext(ops, k);
    TablePrefixes(ops, k + 1);
    var entry := ReadTable(ops)[|ReadTable(ops[..k])|];
    assert entry == ReadTable(ops[..k + 1])[|ReadTable(ops[..k])|];
    forall i | 0 <= i < |entry.indexes|
      ensures entry.indexes[i] < |Flatten(ops)| && Flatten(ops)[entry.indexes[i]] == Query(ops[k].commands[i])
    {
      CommandAt(ops, k, i);
    }
  }

  /** The check table has one entry per verified write, in source order. Its write index points at that
      write and its readback index, one later, at its own readback; an unqueryable write has none. */
  lemma CheckIndexesPointHome(ops: seq<Op>, k: nat)
    requires k < |ops| && ops[k].WriteOp? && ops[k].check.Some?
    ensures |CheckTable(ops[..k + 1])| == |CheckTable(ops[..k])| + 1 <= |CheckTable(ops)|
    ensures
      var entry := CheckTable(ops)[|CheckTable(ops[..k])|];
      && entry.op == ops[k] && entry.writeIndex == Start(ops, k) < |Flatten(ops)|
      && Flatten(ops)[entry.writeIndex] == Write(ops[k].command)
      && (entry.queryIndex.None? <==> ops[k].check.value.Unavailable?)
      && (entry.queryIndex.Some? ==>
            && entry.queryIndex.value == entry.writeIndex + 1 < |Flatten(ops)|
            && Flatten(ops)[entry.queryIndex.value] == Query(ops[k].check.value.query))
  {
    StartNext(ops, k);
    TablePrefixes(ops, k + 1);
    assert CheckTable(ops)[|CheckTable(ops[..k])|] == CheckTable(ops[..k + 1])[|CheckTable(ops[..k])|];
    CommandAt(ops, k, 0);
    if ops[k].check.value.Readback? {
      CommandAt(ops, k, 1);
    }
  }

  lemma QueriesNext(texts: seq<string>, i: nat)
    requires i < |texts|
    ensures QueriesOf(texts)[..i + 1] == QueriesOf(texts)[..i] + [Query(texts[i])]
    ensures FirstTextError(QueriesOf(texts)[..i + 1]).Some? ==>
      FirstTextError(QueriesOf(texts)) == FirstTextError(QueriesOf(texts)[..i + 1])
  {
    FirstTextErrorOfAppend(QueriesOf(texts)[..i + 1], QueriesOf(texts)[i + 1..]);
    assert QueriesOf(texts)[..i + 1] + QueriesOf(texts)[i + 1..] == QueriesOf(texts);
  }

  /** The inner loop over the queries of one read. */
  method AppendQueries(commands: seq<Command>, texts: seq<string>)
    returns (extended: seq<Command>, indexes: seq<nat>, refused: Option<Error>)
    ensures refused == FirstTextError(QueriesOf(texts))
    ensures refused.None? ==> extended == commands + QueriesOf(texts) && indexes == Interval(|commands|, |texts|)
  {
    extended, indexes, refused := commands, [], None;
    for i := 0 to |texts|
      invariant refused.None?
      invariant indexes == Interval(|commands|, i)
      invariant extended == commands + QueriesOf(texts)[..i]
      invariant FirstTextError(QueriesOf(texts)[..i]).None?
    {
      QueriesNext(texts, i);
      FirstTextErrorOfAppend(QueriesOf(texts)[..i], [Query(texts[i])]);
      refused := TextError(texts[i]);
      if refused.Some? {
        return;
      }
      indexes := indexes + [|extended|];
      extended := extended + [Query(texts[i])];
    }
    assert QueriesOf(texts)[..|texts|] == QueriesOf(texts);
  }

  /** The commands of one write: the write and, if it can be read back, its readback. */
  method AppendWrite(commands: seq<Command>, op: Op)
    returns (extended: seq<Command>, queryIndex: Option<nat>, refused: Option<Error>)
    requires op.WriteOp?
    ensures refused == FirstTextError(CommandsOf(op))
    ensures refused.None? ==> extended == commands + CommandsOf(op)
    ensures refused.None? ==>
      queryIndex == if op.check.Some? && op.check.value.Readback? then Some(|commands| + 1) else None
  {
    extended, queryIndex := commands, None;
    FirstTextErrorOfAppend([], [Write(op.command)]);
    refused := TextError(op.command);
    if op.check.Some? && op.check.value.Readback? {
      assert CommandsOf(op)[..1] == [Write(op.command)];
    }
    if refused.Some? {
      return;
    }
    extended := extended + [Write(op.command)];
    if op.check.Some? && op.check.value.Readback? {
      refused := TextError(op.check.value.query);
      if refused.Some? {
        return;
      }
      queryIndex := Some(|extended|);
      extended := extended + [Query(op.check.value.query)];
    }
  }

  lemma {:induction false} TextErrorOfPrefix(ops: seq<Op>, k: nat)
    requires k <= |ops|
    ensures FirstTextError(Flatten(ops[..k])).Some? ==>
      FirstTextError(Flatten(ops)) == FirstTextError(Flatten(ops[..k]))
    decreases |ops|
  {
    if k == |ops| {
      assert ops[..k] == ops;
    } else {
      assert ops[..|ops| - 1][..k] == ops[..k];
      TextErrorOfPrefix(ops[..|ops| - 1], k);
      FirstTextErrorOfAppend(Flatten(ops[..|ops| - 1]), CommandsOf(ops[|ops| - 1]));
    }
  }

  /** The loop of _execute_pending_operations that builds the command list and both tables. It stops at
      the first text the command constructors refuse. */
  method Compile(pending: seq<Op>)
    returns (commands: seq<Command>, readTable: seq<ReadEntry>, checkTable: seq<CheckEntry>, refused: Option<Error>)
    ensures refused == FirstTextError(Flatten(pending))
    ensures refused.None? ==> commands == Flatten(pending)
    ensures refused.None? ==> readTable == ReadTable(pending) && checkTable == CheckTable(pending)
  {
    commands, readTable, checkTable, refused := [], [], [], None;
    for k := 0 to |pending|
      invariant refused.None?
      invariant commands == Flatten(pending[..k])
      invariant readTable == ReadTable(pending[..k]) && checkTable == CheckTable(pending[..k])
      invariant FirstTextError(commands).None?
    {
      var op, base := pending[k], |commands|;
      StartNext(pending, k);
      FirstTextErrorOfAppend(commands, CommandsOf(op));
      TextErrorOfPrefix(pending, k + 1);
      if op.ReadOp? {
        var indexes;
        commands, indexes, refused := AppendQueries(commands, op.commands);
        if refused.Some? {
          return;
        }
        readTable := readTable + [ReadEntry(op, indexes)];
      } else {
        var queryIndex;
        commands, queryIndex, refused := AppendWrite(commands, op);
        if refused.Some? {
          return;
        }
        if op.check.Some? {
          checkTable := checkTable + [CheckEntry(op, base, queryIndex)];
        }
      }
    }
    assert pending[..|pending|] == pending;
  }

}
