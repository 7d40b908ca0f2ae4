/** What every read and every verified write of a batch makes of the replies to its own commands, told by
    positions in the flat command list (driver.py, the batch engine). */
module Replies {

  import opened Wrappers
  import opened Errors
  import opened Commands
  import opened Devices
  import opened Compilation
  import opened Settlement
  import opened Attribution
  import opened BatchMeaning
  import opened DriverModel

  // ----- good replies -----

  /** The texts are the replies at a position and the ones after it, in order. */
  predicate RepliesAre(values: seq<Option<string>>, start: nat, texts: seq<string>) {
    start + |texts| <= |values| && forall i :: 0 <= i < |texts| ==> values[start + i] == Some(texts[i])
  }

  /** The read's parser takes the replies from the read's start on, one per query, in the order of the
      queries. */
  ghost predicate ReadSucceeds(op: Op, values: seq<Option<string>>, start: nat)
    requires op.ReadOp?
  {
    exists texts: seq<string> :: |texts| == |op.commands| && RepliesAre(values, start, texts) && op.parser(texts).Success?
  }

  /** The write has a readback, which comes right after it; the reply exists and reads as what was expected. */
  predicate WriteReadsBack(op: Op, values: seq<Option<string>>, start: nat)
    requires op.WriteOp? && op.check.Some?
  {
    match op.check.value
    case Unavailable(_, _) => false
    case Readback(_, expected, parser) =>
      start + 1 < |values| && values[start + 1].Some? && parser(values[start + 1].value) == Success(expected)
  }

  /** Reads are to succeed and verified writes to read back; other writes are fine as they are. */
  ghost predicate IsGood(op: Op, values: seq<Option<string>>, start: nat) {
    if op.ReadOp? then ReadSucceeds(op, values, start)
    else op.check.Some? ==> WriteReadsBack(op, values, start)
  }

  lemma PickedReplies(values: seq<Option<string>>, start: nat, texts: seq<string>)
    requires RepliesAre(values, start, texts)
    ensures
      var replies := Pick(values, Interval(start, |texts|));
      AllAnswered(replies) && Answers(replies) == texts
  {
    var replies := Pick(values, Interval(start, |texts|));
    forall i | 0 <= i < |texts|
      ensures replies[i] == Some(texts[i])
    {
      PickedAt(values, start, |texts|, i);
    }
    assert Answers(replies) == texts;
  }

  lemma PickedAt(values: seq<Option<string>>, start: nat, n: nat, i: nat)
    requires i < n
    ensures Pick(values, Interval(start, n))[i] == if start + i < |values| then values[start + i] else None
  {
    assert Interval(start, n)[i] == start + i;
  }

  lemma AnsweredReplies(values: seq<Option<string>>, start: nat, n: nat)
    requires n > 0 && AllAnswered(Pick(values, Interval(start, n)))
    ensures |Answers(Pick(values, Interval(start, n)))| == n
    ensures RepliesAre(values, start, Answers(Pick(values, Interval(start, n))))
  {
    var replies := Pick(values, Interval(start, n));
    forall i | 0 <= i < n
      ensures start + i < |values| && values[start + i] == Some(Answers(replies)[i])
    {
      PickedAt(values, start, n, i);
      assert replies[i].Some?;
    }
    PickedAt(values, start, n, n - 1);
    assert replies[n - 1].Some?;
  }

  lemma ReadIsConfirmed(op: Op, values: seq<Option<string>>, start: nat)
    requires op.ReadOp? && op.commands != []
    ensures Judge(op, values, start).Confirmed? <==> ReadSucceeds(op, values, start)
  {
    var n := |op.commands|;
    var replies := Pick(values, Interval(start, n));
    if AllAnswered(replies) {
      AnsweredReplies(values, start, n);
    }
    if ReadSucceeds(op, values, start) {
      var texts: seq<string> :| |texts| == n && RepliesAre(values, start, texts) && op.parser(texts).Success?;
      PickedReplies(values, start, texts);
    }
  }

  lemma GoodIsConfirmed(op: Op, values: seq<Option<string>>, start: nat)
    requires op.ReadOp? ==> op.commands != []
    ensures Judge(op, values, start).Confirmed? <==> IsGood(op, values, start)
  {
    if op.ReadOp? {
      ReadIsConfirmed(op, values, start);
    }
  }

  /** The replies to the commands of the k-th operation are good. */
  ghost predicate GoodAt(ops: seq<Op>, values: seq<Option<string>>, k: nat)
    requires k < |ops|
  {
    IsGood(ops[k], values, Start(ops, k))
  }

  ghost predicate AllGood(ops: seq<Op>, values: seq<Option<string>>) {
    forall k :: 0 <= k < |ops| ==> GoodAt(ops, values, k)
  }

  lemma GoodInPrefix(ops: seq<Op>, values: seq<Option<string>>, prefix: seq<Op>, k: nat)
    requires ops != [] && k < |ops| - 1 && prefix == ops[..|ops| - 1]
    ensures GoodAt(prefix, values, k) == GoodAt(ops, values, k)
  {
    StartOfPrefix(ops, k);
  }

  lemma AllGoodSplit(ops: seq<Op>, values: seq<Option<string>>, prefix: seq<Op>)
    requires ops != [] && prefix == ops[..|ops| - 1]
    ensures AllGood(ops, values) <==> AllGood(prefix, values) && GoodAt(ops, values, |ops| - 1)
  {
    forall k | 0 <= k < |prefix|
      ensures GoodAt(prefix, values, k) == GoodAt(ops, values, k)
    {
      GoodInPrefix(ops, values, prefix, k);
    }
  }

  lemma {:induction false} NoneUnconfirmedIsAllGood(ops: seq<Op>, values: seq<Option<string>>)
    requires WellFormed(ops)
    ensures FirstUnconfirmed(ops, values).None? <==> AllGood(ops, values)
  {
    if ops != [] {
      var prefix, n := ops[..|ops| - 1], |ops| - 1;
      NoneUnconfirmedIsAllGood(prefix, values);
      StartOfPrefix(ops, n);
      GoodIsConfirmed(ops[n], values, Start(ops, n));
      AllGoodSplit(ops, values, prefix);
    }
  }

  lemma GoodTwice(ops: seq<Op>, values: seq<Option<string>>)
    ensures AllGood(ops, values) <==>
      && (forall k :: 0 <= k < |ops| && ops[k].ReadOp? ==> ReadSucceeds(ops[k], values, Start(ops, k)))
      && (forall k :: 0 <= k < |ops| && ops[k].WriteOp? && ops[k].check.Some? ==>
            WriteReadsBack(ops[k], values, Start(ops, k)))
  {
    if AllGood(ops, values) {
      forall k | 0 <= k < |ops|
        ensures IsGood(ops[k], values, Start(ops, k))
      {
        assert GoodAt(ops, values, k);
      }
    } else {
      var k :| 0 <= k < |ops| && !GoodAt(ops, values, k);
      assert !IsGood(ops[k], values, Start(ops, k));
    }
  }

  /** Whatever an executor hands back, the driver raises nothing for it exactly when every read's parser takes
      the replies to the read's own queries and every verified write has a readback that reads as expected. */
  lemma ResultIsAccepted(ops: seq<Op>, values: seq<Option<string>>, cells: seq<Cell>)
    requires WellFormed(ops)
    ensures Finish(ops, Values(values), cells).raised.None? <==>
      && (forall k :: 0 <= k < |ops| && ops[k].ReadOp? ==> ReadSucceeds(ops[k], values, Start(ops, k)))
      && (forall k :: 0 <= k < |ops| && ops[k].WriteOp? && ops[k].check.Some? ==>
            WriteReadsBack(ops[k], values, Start(ops, k)))
  {
    UnconfirmedIsRefutedOrEscaped(ops, values);
    NoneUnconfirmedIsAllGood(ops, values);
    GoodTwice(ops, values);
  }

  /** On any device, a batch none of whose commands faults raises nothing exactly under that condition. */
  lemma BatchIsAccepted<S>(dev: Device<S>, s: S, ops: seq<Op>, cells: seq<Cell>)
    requires WellFormed(ops) && RunCommands(dev, s, Flatten(ops)).fault.None?
    ensures
      var values := RunCommands(dev, s, Flatten(ops)).values;
      AsBatch(dev, s, ops, cells).raised.None? <==>
      && (forall k :: 0 <= k < |ops| && ops[k].ReadOp? ==> ReadSucceeds(ops[k], values, Start(ops, k)))
      && (forall k :: 0 <= k < |ops| && ops[k].WriteOp? && ops[k].check.Some? ==>
            WriteReadsBack(ops[k], values, Start(ops, k)))
  {
    ResultIsAccepted(ops, RunCommands(dev, s, Flatten(ops)).values, cells);
  }

  // ----- the error of the first bad reply -----

  /** A readback whose parser fails fails with an SPD3000Error. */
  predicate FailsHandled(op: Op, values: seq<Option<string>>, start: nat) {
    IsReadback(op) && start + 1 < |values| && values[start + 1].Some? ==>
      var parsed := op.check.value.parser(values[start + 1].value);
      parsed.Failure? ==> IsSouth(parsed.error)
  }

  predicate HandledAt(ops: seq<Op>, values: seq<Option<string>>, k: nat)
    requires k < |ops|
  {
    FailsHandled(ops[k], values, Start(ops, k))
  }

  /** What that parser fails with otherwise. */
  function UnhandledError(ops: seq<Op>, values: seq<Option<string>>, k: nat): Error
    requires k < |ops| && !HandledAt(ops, values, k)
  {
    ops[k].check.value.parser(values[Start(ops, k) + 1].value).error
  }

  lemma HandledInPrefix(ops: seq<Op>, values: seq<Option<string>>, prefix: seq<Op>, k: nat)
    requires ops != [] && k < |ops| - 1 && prefix == ops[..|ops| - 1]
    ensures HandledAt(prefix, values, k) == HandledAt(ops, values, k)
  {
    StartOfPrefix(ops, k);
  }

  lemma {:induction false} HandledMeansNoEscape(ops: seq<Op>, values: seq<Option<string>>)
    requires forall k :: 0 <= k < |ops| ==> HandledAt(ops, values, k)
    ensures FirstEscaped(ops, values).None?
  {
    if ops != [] {
      var prefix, n := ops[..|ops| - 1], |ops| - 1;
      forall k | 0 <= k < n
        ensures HandledAt(prefix, values, k)
      {
        HandledInPrefix(ops, values, prefix, k);
      }
      HandledMeansNoEscape(prefix, values);
      StartOfPrefix(ops, n);
      assert HandledAt(ops, values, n);
    }
  }

  lemma {:induction false} FirstBadIsUnconfirmed(ops: seq<Op>, values: seq<Option<string>>, k: nat)
    requires WellFormed(ops) && k < |ops|
    requires (forall j :: 0 <= j < k ==> GoodAt(ops, values, j)) && !GoodAt(ops, values, k)
    ensures
      var verdict := Judge(ops[k], values, Start(ops, k));
      !verdict.Confirmed? && FirstUnconfirmed(ops, values) == Some(verdict.error)
  {
    var prefix, n := ops[..|ops| - 1], |ops| - 1;
    forall j | 0 <= j < n
      ensures GoodAt(prefix, values, j) == GoodAt(ops, values, j)
    {
      GoodInPrefix(ops, values, prefix, j);
    }
    StartOfPrefix(ops, k);
    if k < n {
      FirstBadIsUnconfirmed(prefix, values, k);
    } else {
      NoneUnconfirmedIsAllGood(prefix, values);
      GoodIsConfirmed(ops[k], values, Start(ops, k));
    }
  }

  /** The texts naming a read, its queries with "; " between them. */
  function Named(queries: seq<string>): string
    requires queries != []
  {
    if |queries| == 1 then queries[0] else queries[0] + "; " + Named(queries[1..])
  }

  lemma {:induction false} LabelIsNamed(queries: seq<string>)
    requires queries != []
    ensures Label(queries) == Named(queries)
  {
    if |queries| > 1 {
      LabelIsNamed(queries[1..]);
      LabelFromFront(queries);
    }
  }

  lemma {:induction false} LabelFromFront(queries: seq<string>)
    requires |queries| > 1
    ensures Label(queries) == queries[0] + "; " + Label(queries[1..])
  {
    var n := |queries| - 1;
    if n == 1 {
      assert queries[..1] == [queries[0]] && queries[1..] == [queries[1]];
    } else {
      LabelFromFront(queries[..n]);
      assert queries[..n][1..] == queries[1..][..n - 1];
      JoinedTwice(queries[0], Label(queries[..n][1..]), queries[n]);
    }
  }

  lemma JoinedTwice(a: string, b: string, c: string)
    ensures (a + "; " + b) + "; " + c == a + "; " + (b + "; " + c)
  {
  }

  /** What is raised for a bad read whose replies are not all there, and whose parser fails. */
  ghost predicate ReadError(op: Op, values: seq<Option<string>>, start: nat, e: Error)
    requires op.ReadOp? && op.commands != []
  {
    if exists texts: seq<string> :: |texts| == |op.commands| && RepliesAre(values, start, texts) then
      forall texts: seq<string> :: |texts| == |op.commands| && RepliesAre(values, start, texts) ==>
        op.parser(texts) == Failure(e)
    else
      e == South("SPD3000ProtocolError", [TextArg("Query '" + Named(op.commands) + "' returned no response")], UNPLACED)
  }

  /** What is raised for a verified write that nothing confirms: its command, query and expected value, and the
      actual one as far as there is any. */
  predicate WriteError(op: Op, values: seq<Option<string>>, start: nat, e: Error)
    requires op.WriteOp? && op.check.Some?
  {
    match op.check.value
    case Unavailable(expected, why) => e == Verification(NoReadback(why), op.command, None, expected, None)
    case Readback(query, expected, parser) =>
      if start + 1 >= |values| || values[start + 1].None? then
        e == Verification(NoReply, op.command, Some(query), expected, None)
      else
        var reply := values[start + 1].value;
        match parser(reply)
        case Failure(cause) =>
          if IsSouth(cause) then e == Verification(Unusable(cause), op.command, Some(query), expected, Some(Text(reply)))
          else e == cause
        case Success(actual) => e == Verification(Mismatch, op.command, Some(query), expected, Some(actual))
  }

  lemma BadReadError(op: Op, values: seq<Option<string>>, start: nat)
    requires op.ReadOp? && op.commands != [] && !ReadSucceeds(op, values, start)
    ensures Judge(op, values, start).Refuted? && ReadError(op, values, start, Judge(op, values, start).error)
  {
    var n := |op.commands|;
    var replies := Pick(values, Interval(start, n));
    ReadIsConfirmed(op, values, start);
    LabelIsNamed(op.commands);
    if AllAnswered(replies) {
      AnsweredReplies(values, start, n);
    }
    forall texts: seq<string> | |texts| == n && RepliesAre(values, start, texts)
      ensures AllAnswered(replies) && texts == Answers(replies)
    {
      PickedReplies(values, start, texts);
    }
  }

  lemma BadWriteError(op: Op, values: seq<Option<string>>, start: nat)
    requires op.WriteOp? && op.check.Some? && !WriteReadsBack(op, values, start)
    ensures !Judge(op, values, start).Confirmed? && WriteError(op, values, start, Judge(op, values, start).error)
  {
  }

  /** The driver raises for the first operation, in source order, whose replies are not good. For a verified
      write the error names its command, its query and the expected value, and the actual one: none where there
      is no reply, the raw reply where the parser cannot use it, and the parsed value where it differs. */
  lemma FirstBadReplyIsRaised(ops: seq<Op>, values: seq<Option<string>>, cells: seq<Cell>, k: nat)
    requires WellFormed(ops) && k < |ops| && forall j :: 0 <= j < |ops| ==> HandledAt(ops, values, j)
    requires (forall j :: 0 <= j < k ==> GoodAt(ops, values, j)) && !GoodAt(ops, values, k)
    ensures
      var raised := Finish(ops, Values(values), cells).raised;
      && raised.Some?
      && if ops[k].ReadOp? then ReadError(ops[k], values, Start(ops, k), raised.value)
         else WriteError(ops[k], values, Start(ops, k), raised.value)
  {
    HandledMeansNoEscape(ops, values);
    UnconfirmedIsRefutedOrEscaped(ops, values);
    FirstBadIsUnconfirmed(ops, values, k);
    if ops[k].ReadOp? {
      BadReadError(ops[k], values, Start(ops, k));
    } else {
      BadWriteError(ops[k], values, Start(ops, k));
    }
  }

  lemma UnhandledIsEscaped(op: Op, values: seq<Option<string>>, start: nat)
    requires !FailsHandled(op, values, start)
    ensures Judge(op, values, start) == Escaped(op.check.value.parser(values[start + 1].value).error)
  {
  }

  lemma EscapedSnoc(ops: seq<Op>, values: seq<Option<string>>, prefix: seq<Op>, verdict: Verdict)
    requires ops != [] && prefix == ops[..|ops| - 1] && verdict == Judge(ops[|prefix|], values, |Flatten(prefix)|)
    ensures FirstEscaped(ops, values) ==
      if FirstEscaped(prefix, values).Some? then FirstEscaped(prefix, values)
      else if verdict.Escaped? then Some(verdict.error) else None
  {
  }

  lemma {:induction false} FirstUnhandledEscapes(ops: seq<Op>, values: seq<Option<string>>, k: nat)
    requires k < |ops|
    requires (forall j :: 0 <= j < k ==> HandledAt(ops, values, j)) && !HandledAt(ops, values, k)
    ensures FirstEscaped(ops, values) == Some(UnhandledError(ops, values, k))
  {
    var prefix, n := ops[..|ops| - 1], |ops| - 1;
    forall j | 0 <= j < n
      ensures HandledAt(prefix, values, j) == HandledAt(ops, values, j)
    {
      HandledInPrefix(ops, values, prefix, j);
    }
    StartOfPrefix(ops, k);
    EscapedSnoc(ops, values, prefix, Judge(ops[n], values, Start(ops, n)));
    if k < n {
      FirstUnhandledEscapes(prefix, values, k);
    } else {
      HandledMeansNoEscape(prefix, values);
      UnhandledIsEscaped(ops[n], values, Start(ops, n));
    }
  }

  /** Where a readback's parser fails with anything but an SPD3000Error, the first such exception is raised as
      it is, whatever else went wrong. */
  lemma FirstEscapeIsRaised(ops: seq<Op>, values: seq<Option<string>>, cells: seq<Cell>, k: nat)
    requires k < |ops|
    requires (forall j :: 0 <= j < k ==> HandledAt(ops, values, j)) && !HandledAt(ops, values, k)
    ensures Finish(ops, Values(values), cells).raised == Some(UnhandledError(ops, values, k))
  {
    FirstUnhandledEscapes(ops, values, k);
  }

  // ----- the Deferreds -----

  lemma {:induction false} SlotIsListed(ops: seq<Op>, k: nat)
    requires k < |ops| && ops[k].ReadOp?
    ensures ops[k].slot in SlotsOf(ops)
  {
    var prefix, n := ops[..|ops| - 1], |ops| - 1;
    if k < n {
      SlotIsListed(prefix, k);
      assert prefix[k] == ops[k];
    } else {
      assert SlotsOf(ops)[|SlotsOf(prefix)|] == ops[k].slot;
    }
  }

  /** Each read's Deferred is settled by the read's own replies, whatever happens to other operations. */
  lemma {:induction false} SettledByOwnReplies(ops: seq<Op>, values: seq<Option<string>>, cells: seq<Cell>, k: nat)
    requires Fresh(SlotsOf(ops), cells) && k < |ops| && ops[k].ReadOp?
    ensures ops[k].slot < |cells|
    ensures SettleReads(ops, values, cells)[ops[k].slot]
         == PENDING.SettledBy(JudgeRead(ops[k], Pick(values, Interval(Start(ops, k), |ops[k].commands|))))
  {
    var prefix, n := ops[..|ops| - 1], |ops| - 1;
    FreshPrefix(ops, cells);
    SettleReadsSettlesAll(prefix, values, cells);
    StartOfPrefix(ops, k);
    if k < n {
      assert prefix[k] == ops[k];
      SettledByOwnReplies(prefix, values, cells, k);
      SlotIsListed(prefix, k);
    }
  }

  /** A read whose replies are all there has its Deferred hold what its parser makes of them, the value or the
      error, settled once. */
  lemma DeferredHoldsOwnResult(ops: seq<Op>, values: seq<Option<string>>, cells: seq<Cell>, k: nat, texts: seq<string>)
    requires Fresh(SlotsOf(ops), cells) && k < |ops| && ops[k].ReadOp?
    requires |texts| == |ops[k].commands| && RepliesAre(values, Start(ops, k), texts)
    ensures ops[k].slot < |cells|
    ensures Finish(ops, Values(values), cells).cells[ops[k].slot] ==
      match ops[k].parser(texts)
      case Success(v) => Cell(Some(v), None, 1)
      case Failure(e) => Cell(None, Some(e), 1)
  {
    SettledByOwnReplies(ops, values, cells, k);
    PickedReplies(values, Start(ops, k), texts);
  }

  /** A read one of whose replies is missing has its Deferred hold an error that names its queries. */
  lemma MissingReplyIsReported(ops: seq<Op>, values: seq<Option<string>>, cells: seq<Cell>, k: nat)
    requires Fresh(SlotsOf(ops), cells) && k < |ops| && ops[k].ReadOp? && ops[k].commands != []
    requires forall texts: seq<string> :: |texts| == |ops[k].commands| ==> !RepliesAre(values, Start(ops, k), texts)
    ensures ops[k].slot < |cells|
    ensures Finish(ops, Values(values), cells).cells[ops[k].slot] ==
      Cell(None, Some(South("SPD3000ProtocolError",
                            [TextArg("Query '" + Named(ops[k].commands) + "' returned no response")], UNPLACED)), 1)
  {
    SettledByOwnReplies(ops, values, cells, k);
    LabelIsNamed(ops[k].commands);
    if AllAnswered(Pick(values, Interval(Start(ops, k), |ops[k].commands|))) {
      AnsweredReplies(values, Start(ops, k), |ops[k].commands|);
    }
  }

  /** After a failed execution every read's Deferred holds the error and no value, and no other is touched. */
  lemma {:induction false} RejectedWithTheError(ops: seq<Op>, e: Error, cells: seq<Cell>)
    requires Fresh(SlotsOf(ops), cells)
    ensures forall i :: 0 <= i < |cells| ==>
      RejectReads(ops, e, cells)[i] == if i in SlotsOf(ops) then Cell(None, Some(e), 1) else cells[i]
  {
    if ops != [] {
      var prefix, op := ops[..|ops| - 1], ops[|ops| - 1];
      FreshPrefix(ops, cells);
      RejectedWithTheError(prefix, e, cells);
      if op.ReadOp? {
        InSnoc(SlotsOf(prefix), op.slot);
      }
    }
  }

  lemma InSnoc(slots: seq<nat>, slot: nat)
    ensures forall i: nat :: i in slots + [slot] <==> i in slots || i == slot
  {
    assert (slots + [slot])[|slots|] == slot;
    assert forall k :: 0 <= k < |slots| ==> (slots + [slot])[k] == slots[k];
  }

  /** What a placed failure raises is what every read of the batch is rejected with. */
  lemma FailureReachesEveryRead(ops: seq<Op>, e: Error, cells: seq<Cell>)
    requires Fresh(SlotsOf(ops), cells) && Placed(ops, Raised(e))
    ensures
      var finished := Finish(ops, Raised(e), cells);
      && finished.raised.Some? && |finished.cells| == |cells|
      && forall i :: 0 <= i < |cells| ==>
           finished.cells[i] == if i in SlotsOf(ops) then Cell(None, finished.raised, 1) else cells[i]
  {
    FailureRejects(ops, e, cells);
    RejectedWithTheError(ops, Finish(ops, Raised(e), cells).raised.value, cells);
  }

  // ----- refused texts -----

  lemma {:induction false} FirstRefusedText(commands: seq<Command>, k: nat)
    requires k < |commands| && TextError(commands[k].text).Some?
    requires forall i :: 0 <= i < k ==> TextError(commands[i].text).None?
    ensures FirstTextError(commands) == TextError(commands[k].text)
  {
    var n := |commands| - 1;
    if k < n {
      FirstRefusedText(commands[..n], k);
    } else {
      ValidMeansNoTextError(commands[..n]);
    }
  }

  /** A text its constructor refuses stops the batch before anything is sent, with the error of the first such
      text, and leaves every Deferred as it is. */
  lemma RefusedTextSendsNothing<S>(act: Executor<S>, d: State<S>, ops: seq<Op>, k: nat)
    requires k < |Flatten(ops)| && TextError(Flatten(ops)[k].text).Some?
    requires forall i :: 0 <= i < k ==> TextError(Flatten(ops)[i].text).None?
    ensures ExecutePending(act, d, ops) == (d, TextError(Flatten(ops)[k].text))
  {
    FirstRefusedText(Flatten(ops), k);
  }

  /** Otherwise the executor is given all the commands at once, in source order, and only the instrument and the
      Deferreds change. */
  lemma AcceptedTextsAreExecuted<S>(act: Executor<S>, d: State<S>, ops: seq<Op>)
    requires forall i :: 0 <= i < |Flatten(ops)| ==> TextError(Flatten(ops)[i].text).None?
    ensures
      var (world, outcome) := act(d.world, Flatten(ops));
      var (after, raised) := ExecutePending(act, d, ops);
      && after == d.(world := world, cells := after.cells)
      && Finished(after.cells, raised) == Finish(ops, outcome, d.cells)
  {
    ValidMeansNoTextError(Flatten(ops));
  }

  // ----- cancelled batches -----

  /** The error of a read that was cancelled. */
  predicate CancelledCell(cell: Cell, queries: seq<string>)
    requires queries != []
  {
    cell == Cell(None,
                 Some(South("SPD3000DeferredResultError",
                            [TextArg("Query '" + Named(queries) + "' was cancelled because its batch body did not complete")],
                            UNPLACED)),
                 1)
  }

  lemma {:induction false} CancelledOneByOne(ops: seq<Op>, cells: seq<Cell>, k: nat)
    requires Fresh(SlotsOf(ops), cells) && WellFormed(ops) && k < |ops| && ops[k].ReadOp?
    ensures ops[k].slot < |cells| && CancelledCell(CancelReads(ops, cells)[ops[k].slot], ops[k].commands)
  {
    var prefix, n := ops[..|ops| - 1], |ops| - 1;
    FreshPrefix(ops, cells);
    CancelReadsSettlesAll(prefix, cells);
    if k < n {
      assert prefix[k] == ops[k];
      CancelledOneByOne(prefix, cells, k);
      SlotIsListed(prefix, k);
    } else {
      LabelIsNamed(ops[k].commands);
    }
  }

  lemma {:induction false} HandleIsOfARead(ops: seq<Op>, slot: nat)
    requires slot in SlotsOf(ops)
    ensures exists k :: 0 <= k < |ops| && ops[k].ReadOp? && ops[k].slot == slot
  {
    var prefix, op := ops[..|ops| - 1], ops[|ops| - 1];
    if op.ReadOp? {
      InSnoc(SlotsOf(prefix), op.slot);
    } else {
      assert SlotsOf(ops) == SlotsOf(prefix);
    }
    if slot in SlotsOf(prefix) {
      HandleIsOfARead(prefix, slot);
      var k :| 0 <= k < |prefix| && prefix[k].ReadOp? && prefix[k].slot == slot;
      assert ops[k] == prefix[k];
    } else {
      assert ops[|ops| - 1].slot == slot;
    }
  }

  /** Leaving a batch whose body raised: every Deferred made in it has no value and the cancellation error of its
      own read, naming that read's queries; every other Deferred and the instrument are as they were. */
  lemma AbandonedBatch<S>(act: Executor<S>, d: State<S>)
    requires Valid(d) && d.collecting
    ensures
      var (after, raised) := EndBatch(act, d, false);
      && raised.None? && after.world == d.world && |after.cells| == |d.cells|
      && (forall k :: 0 <= k < |d.pending| && d.pending[k].ReadOp? ==>
            d.pending[k].slot < |after.cells| && CancelledCell(after.cells[d.pending[k].slot], d.pending[k].commands))
      && (forall i :: 0 <= i < |d.cells| && i !in d.handles ==> after.cells[i] == d.cells[i])
    ensures forall i :: i in d.handles ==> exists k :: 0 <= k < |d.pending| && d.pending[k].ReadOp? && d.pending[k].slot == i
  {
    CancelReadsSettlesAll(d.pending, d.cells);
    forall k | 0 <= k < |d.pending| && d.pending[k].ReadOp?
      ensures d.pending[k].slot < |d.cells| && CancelledCell(CancelReads(d.pending, d.cells)[d.pending[k].slot], d.pending[k].commands)
    {
      CancelledOneByOne(d.pending, d.cells, k);
    }
    forall i | i in d.handles
      ensures exists k :: 0 <= k < |d.pending| && d.pending[k].ReadOp? && d.pending[k].slot == i
    {
      HandleIsOfARead(d.pending, i);
    }
  }
}
