/** User code in terms of the scopes it opens: every with block is left again, whatever happens inside. */
module Scripts {

  import opened Wrappers
  import opened Errors
  import opened Commands
  import opened Devices
  import opened Compilation
  import opened Settlement
  import opened DriverModel
  import opened DriverRuns
  import opened Replies

  /** Attempt is a body whose exceptions are caught, Fail a body that raises by itself. */
  datatype Script =
    | Do(call: Call)
    | Fail(error: Error)
    | Then(first: Script, second: Script)
    | Attempt(body: Script)
    | InBatch(body: Script)
    | Verifying(enabled: bool, body: Script)

  /** Scopes are opened and left by with blocks only. */
  predicate Plain(script: Script) {
    match script
    case Do(call) =>
      && !call.Begin? && !call.End? && !call.Force? && !call.Unforce?
      && (call.ReadCall? ==> call.texts != [])
    case Fail(_) => true
    case Then(a, b) => Plain(a) && Plain(b)
    case Attempt(body) => Plain(body)
    case InBatch(body) => Plain(body)
    case Verifying(_, body) => Plain(body)
  }

  /** The lock and the scopes are as they were; an enclosing batch has only gained operations; what was
      settled has stayed. */
  ghost predicate Restores<S>(d: State<S>, after: State<S>) {
    && Valid(after)
    && after.holder == d.holder && after.depth == d.depth
    && after.overrides == d.overrides && after.collecting == d.collecting
    && d.pending <= after.pending && d.handles <= after.handles
    && KeepsSettled(d.cells, after.cells)
  }

  /** Running user code. Whatever its shape, and whether it is left by a return or by an exception, it
      restores what it found. */
  function Exec<S>(act: Executor<S>, d: State<S>, t: Thread, script: Script): (r: (State<S>, Option<Error>))
    requires Plain(script) && Valid(d) && CanAcquire(d, t)
    ensures Restores(d, r.0)
    decreases script
  {
    match script
    case Do(call) =>
      DoRestores(act, d, Event(t, call));
      Next(act, d, Event(t, call))
    case Fail(e) => (d, Some(e))
    case Then(a, b) =>
      var (d1, raised) := Exec(act, d, t, a);
      if raised.Some? then (d1, raised)
      else
        var r := Exec(act, d1, t, b);
        RestoresBoth(d, d1, r.0);
        r
    case Attempt(body) => (Exec(act, d, t, body).0, None)
    case InBatch(body) =>
      var (d1, refused) := BeginBatch(d, t);
      BeginIsValid(act, d, t);
      if refused.Some? then (d1, refused)
      else
        var (d2, raised) := Exec(act, d1, t, body);
        EndRestores(act, d, d2, t, raised.None?);
        var (d3, failed) := EndBatch(act, d2, raised.None?);
        (d3, if raised.Some? then raised else failed)
    case Verifying(enabled, body) =>
      VerifyIsValid(act, d, t, enabled);
      var (d2, raised) := Exec(act, BeginVerify(d, t, enabled), t, body);
      UnverifyRestores(act, d, d2, t, enabled);
      (EndVerify(d2), raised)
  }

  lemma RestoresBoth<S>(d: State<S>, d1: State<S>, d2: State<S>)
    requires Restores(d, d1) && Restores(d1, d2)
    ensures Restores(d, d2)
  {
  }

  lemma DoRestores<S>(act: Executor<S>, d: State<S>, ev: Event)
    requires Plain(Do(ev.call)) && Valid(d) && Enabled(d, ev)
    ensures Restores(d, Next(act, d, ev).0)
  {
    NextKeepsValid(act, d, ev);
  }

  lemma BeginIsValid<S>(act: Executor<S>, d: State<S>, t: Thread)
    requires Valid(d) && CanAcquire(d, t)
    ensures var (d1, refused) := BeginBatch(d, t);
      if refused.Some? then Restores(d, d1) else Valid(d1) && CanAcquire(d1, t)
  {
    NextKeepsValid(act, d, Event(t, Begin));
  }

  lemma EndRestores<S>(act: Executor<S>, d: State<S>, inside: State<S>, t: Thread, execute: bool)
    requires Valid(d) && CanAcquire(d, t) && !d.collecting && Restores(BeginBatch(d, t).0, inside)
    ensures Restores(d, EndBatch(act, inside, execute).0)
  {
    NextKeepsValid(act, inside, Event(t, End(execute)));
    EndRestoresScopes(act, d, inside, t, execute);
    SettledStays(d.cells, inside.cells, EndBatch(act, inside, execute).0.cells);
  }

  lemma EndRestoresScopes<S>(act: Executor<S>, d: State<S>, inside: State<S>, t: Thread, execute: bool)
    requires Valid(d) && CanAcquire(d, t) && !d.collecting
    requires inside.holder == Some(t) && inside.depth == d.depth + 1 && inside.overrides == d.overrides
    ensures
      var after := EndBatch(act, inside, execute).0;
      && after.holder == d.holder && after.depth == d.depth && after.overrides == d.overrides
      && !after.collecting && after.pending == d.pending == [] && after.handles == d.handles == []
  {
  }

  lemma SettledStays(before: seq<Cell>, middle: seq<Cell>, after: seq<Cell>)
    requires KeepsSettled(before, middle) && KeepsSettled(middle, after)
    ensures KeepsSettled(before, after)
  {
  }

  lemma VerifyIsValid<S>(act: Executor<S>, d: State<S>, t: Thread, enabled: bool)
    requires Valid(d) && CanAcquire(d, t)
    ensures Valid(BeginVerify(d, t, enabled)) && CanAcquire(BeginVerify(d, t, enabled), t)
  {
    NextKeepsValid(act, d, Event(t, Force(enabled)));
  }

  lemma UnverifyRestores<S>(act: Executor<S>, d: State<S>, inside: State<S>, t: Thread, enabled: bool)
    requires Valid(d) && CanAcquire(d, t) && Restores(BeginVerify(d, t, enabled), inside)
    ensures Restores(d, EndVerify(inside))
  {
    NextKeepsValid(act, inside, Event(t, Unforce));
  }

  predicate TextsOfScript(script: Script) {
    match script
    case Do(call) => ValidTexts(call)
    case Fail(_) => true
    case Then(a, b) => TextsOfScript(a) && TextsOfScript(b)
    case Attempt(body) => TextsOfScript(body)
    case InBatch(body) => TextsOfScript(body)
    case Verifying(_, body) => TextsOfScript(body)
  }

  lemma DoForgetsNothing<S(!new)>(act: Executor<S>, d: State<S>, ev: Event)
    requires Plain(Do(ev.call)) && Valid(d) && Enabled(d, ev) && NothingForgotten(d)
    requires CarriesIndex(act) && ValidTexts(ev.call)
    ensures NothingForgotten(Next(act, d, ev).0)
  {
    if ev.call.WriteCall? || ev.call.ReadCall? {
      if d.collecting { QueueingForgetsNothing(act, d, ev); } else { ExecutingForgetsNothing(act, d, ev); }
    }
  }

  /** Whatever is caught, re-raised or cut short inside, user code leaves behind no Deferred that waits,
      except those of a batch that was open before it started. */
  lemma {:induction false} ScriptForgetsNothing<S(!new)>(act: Executor<S>, d: State<S>, t: Thread, script: Script)
    requires Plain(script) && TextsOfScript(script) && Valid(d) && CanAcquire(d, t)
    requires CarriesIndex(act) && NothingForgotten(d)
    ensures NothingForgotten(Exec(act, d, t, script).0)
    decreases script
  {
    match script
    case Do(call) => DoForgetsNothing(act, d, Event(t, call));
    case Fail(_) =>
    case Then(a, b) =>
      ScriptForgetsNothing(act, d, t, a);
      var (d1, raised) := Exec(act, d, t, a);
      if raised.None? {
        ScriptForgetsNothing(act, d1, t, b);
      }
    case Attempt(body) => ScriptForgetsNothing(act, d, t, body);
    case InBatch(body) =>
      if !d.collecting {
        BeginIsValid(act, d, t);
        var d1 := BeginBatch(d, t).0;
        ScriptForgetsNothing(act, d1, t, body);
        var (d2, raised) := Exec(act, d1, t, body);
        EndingForgetsNothing(act, d2, Event(t, End(raised.None?)));
      }
    case Verifying(enabled, body) =>
      VerifyIsValid(act, d, t, enabled);
      ScriptForgetsNothing(act, BeginVerify(d, t, enabled), t, body);
  }

  /** Inside a batch nothing is sent, whatever the user code is. */
  lemma {:induction false} NothingIsSentInBatch<S>(act: Executor<S>, d: State<S>, t: Thread, script: Script)
    requires Plain(script) && Valid(d) && CanAcquire(d, t) && d.collecting
    ensures Exec(act, d, t, script).0.world == d.world
    decreases script
  {
    match script
    case Do(_) =>
    case Fail(_) =>
    case Then(a, b) =>
      var (d1, raised) := Exec(act, d, t, a);
      NothingIsSentInBatch(act, d, t, a);
      if raised.None? {
        NothingIsSentInBatch(act, d1, t, b);
      }
    case Attempt(body) =>
      NothingIsSentInBatch(act, d, t, body);
    case InBatch(_) =>
    case Verifying(enabled, body) =>
      VerifyIsValid(act, d, t, enabled);
      NothingIsSentInBatch(act, BeginVerify(d, t, enabled), t, body);
  }

  /** The body of a batch, up to where the batch is left. */
  function Inside<S>(act: Executor<S>, d: State<S>, t: Thread, body: Script): (State<S>, Option<Error>)
    requires Plain(body) && Valid(d) && CanAcquire(d, t) && !d.collecting
  {
    BeginIsValid(act, d, t);
    Exec(act, BeginBatch(d, t).0, t, body)
  }

  /** A batch whose body raises lets that exception out and leaves the instrument as it was, and every Deferred
      made in it is cancelled. */
  lemma FailedBatch<S>(act: Executor<S>, d: State<S>, t: Thread, body: Script)
    requires Plain(body) && Valid(d) && CanAcquire(d, t) && !d.collecting && Inside(act, d, t, body).1.Some?
    ensures
      var (inside, raised) := Inside(act, d, t, body);
      var (after, escaped) := Exec(act, d, t, InBatch(body));
      && escaped == raised && after.world == d.world
      && forall k :: 0 <= k < |inside.pending| && inside.pending[k].ReadOp? ==>
           && inside.pending[k].commands != [] && inside.pending[k].slot < |after.cells|
           && CancelledCell(after.cells[inside.pending[k].slot], inside.pending[k].commands)
  {
    BeginIsValid(act, d, t);
    NothingIsSentInBatch(act, BeginBatch(d, t).0, t, body);
    AbandonedBatch(act, Inside(act, d, t, body).0);
  }

  /** A batch whose body completes is executed when it is left, all at once, and what that raises is let out. */
  lemma CompletedBatch<S>(act: Executor<S>, d: State<S>, t: Thread, body: Script)
    requires Plain(body) && Valid(d) && CanAcquire(d, t) && !d.collecting && Inside(act, d, t, body).1.None?
    ensures
      var inside := Inside(act, d, t, body).0;
      var (after, raised) := Exec(act, d, t, InBatch(body));
      && inside.world == d.world
      && if inside.pending == [] then after.world == d.world && after.cells == inside.cells && raised.None?
         else
           var left := inside.(collecting := false, pending := [], authors := [], handles := []);
           var (executed, error) := ExecutePending(act, left, inside.pending);
           after.world == executed.world && after.cells == executed.cells && raised == error
  {
    BeginIsValid(act, d, t);
    NothingIsSentInBatch(act, BeginBatch(d, t).0, t, body);
  }
}
