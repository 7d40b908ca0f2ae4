/** Which writes are verified, and against what (driver.py, verify_writes and _write). */
module Scopes {

  import opened Wrappers
  import opened Errors
  import opened Commands
  import opened Devices
  import opened Compilation
  import opened Settlement
  import opened DriverModel

  /** Entering a scope makes its choice count, and leaving it makes the choice outside count again. */
  lemma InnermostScopeDecides<S>(d: State<S>, t: Thread, enabled: bool)
    ensures ShouldVerify(BeginVerify(d, t, enabled)) == enabled
    ensures ShouldVerify(EndVerify(BeginVerify(d, t, enabled))) == ShouldVerify(d)
    ensures EndVerify(BeginVerify(d, t, enabled)).overrides == d.overrides
    ensures d.overrides == [] ==> ShouldVerify(d) == d.globally
  {
    var inside := BeginVerify(d, t, enabled);
    assert inside.overrides[|d.overrides|] == enabled;
    assert inside.overrides[..|d.overrides|] == d.overrides;
  }

  /** Over any nesting the last choice counts, whatever the ones around it and the driver's own say. */
  lemma {:induction false} NestedScopes<S>(d: State<S>, t: Thread, choices: seq<bool>)
    ensures
      var inside := Nested(d, t, choices);
      && inside.overrides == d.overrides + choices
      && (choices != [] ==> ShouldVerify(inside) == choices[|choices| - 1])
      && (choices == [] ==> inside == d)
  {
    if choices == [] {
      assert d.overrides + choices == d.overrides;
    } else {
      var n := |choices| - 1;
      NestedScopes(d, t, choices[..n]);
      assert choices == choices[..n] + [choices[n]];
      InnermostScopeDecides(Nested(d, t, choices[..n]), t, choices[n]);
    }
  }

  /** The driver after entering some scopes, one inside the other. */
  function Nested<S>(d: State<S>, t: Thread, choices: seq<bool>): State<S> {
    if choices == [] then d
    else BeginVerify(Nested(d, t, choices[..|choices| - 1]), t, choices[|choices| - 1])
  }

  /** The check of a write made where the innermost scope says enabled: none if it says no; otherwise exactly
      the verification the write comes with, or if it comes with none, the complaint that there is none, for the
      reason given or the standard one. */
  ghost predicate IsCheckOf(check: Option<Check>, enabled: bool, verification: Option<Check>, why: Option<string>) {
    if !enabled then check.None?
    else if verification.Some? then check == verification
    else if why.Some? && why.value != "" then check == Some(Unavailable(Nothing, why.value))
    else check == Some(Unavailable(Nothing, "No automatic verification is defined for this write operation"))
  }

  /** A write in a batch is queued behind the others with the check of the scope it is made in. */
  lemma QueuedWriteIsChecked<S>(act: Executor<S>, d: State<S>, t: Thread, enabled: bool, command: string,
                                verification: Option<Check>, why: Option<string>)
    requires d.collecting
    ensures
      var inside := BeginVerify(d, t, enabled);
      var (after, raised) := DoWrite(act, inside, t, command, verification, why);
      && raised.None? && |after.pending| == |d.pending| + 1 && after.pending[..|d.pending|] == d.pending
      && after.pending[|d.pending|].WriteOp? && after.pending[|d.pending|].command == command
      && IsCheckOf(after.pending[|d.pending|].check, enabled, verification, why)
      && after == inside.(pending := after.pending, authors := d.authors + [t])
  {
    InnermostScopeDecides(d, t, enabled);
    var (after, _) := DoWrite(act, BeginVerify(d, t, enabled), t, command, verification, why);
    assert after.pending[..|d.pending|] == d.pending;
  }

  /** Outside a batch it is executed at once, with that check. */
  lemma ExecutedWriteIsChecked<S>(act: Executor<S>, d: State<S>, t: Thread, enabled: bool, command: string,
                                  verification: Option<Check>, why: Option<string>)
    requires !d.collecting
    ensures
      var inside := BeginVerify(d, t, enabled);
      exists check ::
        && IsCheckOf(check, enabled, verification, why)
        && DoWrite(act, inside, t, command, verification, why) == ExecutePending(act, inside, [WriteOp(command, check)])
  {
    InnermostScopeDecides(d, t, enabled);
    assert IsCheckOf(SelectedCheck(BeginVerify(d, t, enabled), verification, why), enabled, verification, why);
  }

  /** With no scope open the driver's own setting decides. */
  lemma UnscopedWriteIsChecked<S>(act: Executor<S>, d: State<S>, t: Thread, command: string,
                                  verification: Option<Check>, why: Option<string>)
    requires !d.collecting && d.overrides == []
    ensures exists check ::
      && IsCheckOf(check, d.globally, verification, why)
      && DoWrite(act, d, t, command, verification, why) == ExecutePending(act, d, [WriteOp(command, check)])
  {
    assert IsCheckOf(SelectedCheck(d, verification, why), d.globally, verification, why);
  }

  /** The driver's own setting counts wherever no scope is open, and only there. */
  lemma OwnSetting<S>(act: Executor<S>, d: State<S>, t: Thread, enabled: bool)
    requires Enabled(d, Event(t, SetGlobally(enabled)))
    ensures
      var after := Next(act, d, Event(t, SetGlobally(enabled))).0;
      ShouldVerify(after) == if d.overrides == [] then enabled else ShouldVerify(d)
  {
  }

  /** verify_writes(True) around verify_writes(False): a write inside is not verified. */
  lemma InnerScopeSwitchesOff<S>(act: Executor<S>, d: State<S>, t: Thread, command: string,
                                 verification: Option<Check>, why: Option<string>)
    requires d.collecting && d.overrides == [true, false]
    ensures DoWrite(act, d, t, command, verification, why).0.pending == d.pending + [WriteOp(command, None)]
  {
  }

  /** A list of raw commands is refused within a batch, and where writes are to be verified, before anything is
      sent; otherwise it goes to the executor as it is, and no Deferred or scope is touched. */
  lemma RawCommands<S>(act: Executor<S>, d: State<S>, commands: seq<Command>)
    ensures
      var (after, raised) := DoRaw(act, d, commands);
      && after == d.(world := after.world)
      && (d.collecting || ShouldVerify(d) ==>
            && after == d && raised.Some? && raised.value.South?
            && raised.value.cls == "SPD3000ValidationError" && raised.value.at == Position(None, None, None))
      && (!d.collecting && !ShouldVerify(d) ==>
            && after.world == act(d.world, commands).0
            && raised == match act(d.world, commands).1 case Values(_) => None case Raised(e) => Some(e))
  {
  }
}
