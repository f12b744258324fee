/** What each step of an attempt does, told by the step and the state before it. */
module AdmissionSteps {
  import opened Common
  import opened AdmissionModel
  import opened AdmissionRuns
  import opened AdmissionLife

  /** A poll that finds its channel ready in time, and therefore sends an RPC. */
  predicate Sends(m: Machine, step: Step) {
    step.DoPoll? && m.phase == Connecting && !m.cancelled && !step.expired && step.ready
  }

  /** The finished call a poll takes: the pending one, or one that finishes while it is being sent. */
  function Taken(config: Config, m: Machine, step: Step): Option<Call> {
    if Sends(m, step) && step.early.Some? then Some(Call(config.role == Star && m.hello.Some?, step.early))
    else if step.DoPoll? && m.phase == Registration && m.call.Some? && m.call.value.completion.Some? then m.call
    else None
  }

  /** The call was a listing and the answer was that the credential is no longer good. */
  predicate Denied(call: Option<Call>) {
    && call.Some? && call.value.listing && call.value.completion.Some?
    && (call.value.completion.value.status == Unauthenticated || call.value.completion.value.status == PermissionDenied)
  }

  /** The result a step hands to the caller, if any. */
  function ResultOf(env: Env, config: Config, m: Machine, step: Step): Option<Result<Joined>> {
    var call := Taken(config, m, step);
    if step.DoPoll? && m.phase == Connecting && m.cancelled then Some(Failure(Cancelled))
    else if step.DoPoll? && m.phase == Connecting && step.expired then Some(Failure(Timeout))
    else if call.None? || call.value.completion.None? then None
    else
      var c := call.value.completion.value;
      if m.cancelled then Some(Failure(Cancelled))
      else if c.status != RpcOk then Some(Failure(Transport))
      else if !call.value.listing then Some(Validate(env, config, m.local, c.response))
      else if m.hello.None? then None
      else Some(Validate(env, config, m.local,
                         Response(m.pulse, c.directory, m.hello.value.admission, m.hello.value.signature)))
  }

  function RequestOf(config: Config, m: Machine): Request {
    if config.role == Star && m.hello.Some? then List(m.hello.value.admission, m.hello.value.signature) else Register
  }

  lemma ConcludeIs(env: Env, config: Config, m: Machine)
    requires m.call.Some? && m.call.value.completion.Some? && (m.call.value.listing ==> m.hello.Some?)
    ensures var t := Conclude(env, config, m);
            && (t.revoked <==> m.revoked || Denied(m.call))
            && t.sent == m.sent && t.begins == m.begins && t.cancelled == m.cancelled
            && t.results == m.results + [
                 if m.cancelled then Failure(Cancelled)
                 else if m.call.value.completion.value.status != RpcOk then Failure(Transport)
                 else Validate(env, config, m.local, Answer(m, m.call.value))]
  {
  }

  /** The step sends, begins, revokes and reports exactly this. */
  ghost predicate Does(env: Env, config: Config, m: Machine, step: Step, t: Machine) {
    && t.sent == m.sent + (if Sends(m, step) then [RequestOf(config, m)] else [])
    && t.begins == m.begins + (if step.DoBegin? && m.phase == Idle && !m.cancelled then 1 else 0)
    && (t.cancelled <==> m.cancelled || step.DoCancel?)
    && (t.revoked <==> m.revoked || Denied(Taken(config, m, step)))
    && t.results == m.results + (match ResultOf(env, config, m, step) case None => [] case Some(r) => [r])
  }

  lemma PollDoes(env: Env, config: Config, m: Machine, step: Step)
    requires Invariant(env, config, m) && Enabled(m, step) && step.DoPoll?
    ensures Does(env, config, m, step, Next(env, config, m, step))
  {
    if Sends(m, step) {
      var called := ArriveEarly(StartCall(config, m), step.early);
      if step.early.Some? {
        ConcludeIs(env, config, called);
      }
    } else if m.phase == Registration && m.call.value.completion.Some? {
      ConcludeIs(env, config, m);
    }
  }

  /** Every step does exactly what its cases say. */
  lemma StepDoes(env: Env, config: Config, m: Machine, step: Step)
    requires Invariant(env, config, m) && Enabled(m, step)
    ensures Does(env, config, m, step, Next(env, config, m, step))
  {
    if step.DoPoll? {
      PollDoes(env, config, m, step);
    }
  }

  // ---- revocation over runs ----

  /** Step k of the run took a listing that was denied. */
  ghost predicate DeniedAt(env: Env, config: Config, m: Machine, steps: seq<Step>, k: nat)
    requires Invariant(env, config, m)
  {
    && k < |steps| && Executable(env, config, m, steps[..k])
    && Denied(Taken(config, Execute(env, config, m, steps[..k]), steps[k]))
  }

  lemma DeniedLater(env: Env, config: Config, m: Machine, steps: seq<Step>, k: nat)
    requires Invariant(env, config, m) && Executable(env, config, m, steps) && steps != []
    ensures Invariant(env, config, Next(env, config, m, steps[0]))
    ensures DeniedAt(env, config, m, steps, k + 1) <==>
            DeniedAt(env, config, Next(env, config, m, steps[0]), steps[1..], k)
  {
    StepKeeps(env, config, m, steps[0]);
    if k < |steps| - 1 {
      assert steps[..k + 1][0] == steps[0] && steps[..k + 1][1..] == steps[1..][..k];
    }
  }

  lemma {:induction false} RevokedFrom(env: Env, config: Config, m: Machine, steps: seq<Step>)
    requires Invariant(env, config, m) && Executable(env, config, m, steps)
    ensures Execute(env, config, m, steps).revoked <==> m.revoked || exists k :: DeniedAt(env, config, m, steps, k)
    decreases |steps|
  {
    if steps != [] {
      var t := Next(env, config, m, steps[0]);
      StepDoes(env, config, m, steps[0]);
      StepKeeps(env, config, m, steps[0]);
      RevokedFrom(env, config, t, steps[1..]);
      assert steps[..0] == [];
      assert DeniedAt(env, config, m, steps, 0) <==> Denied(Taken(config, m, steps[0]));
      if k: nat :| DeniedAt(env, config, t, steps[1..], k) {
        DeniedLater(env, config, m, steps, k);
      }
      if k: nat :| k > 0 && DeniedAt(env, config, m, steps, k) {
        DeniedLater(env, config, m, steps, k - 1);
      }
    }
  }

  /** In every run the process is revoked exactly when some poll of it took a listing that was denied. */
  lemma RevokedExactly(env: Env, config: Config, steps: seq<Step>)
    requires Run(env, config, steps)
    ensures Invariant(env, config, FRESH)
    ensures After(env, config, steps).revoked <==> exists k :: DeniedAt(env, config, FRESH, steps, k)
  {
    FreshIsSound(env, config);
    RevokedFrom(env, config, FRESH, steps);
  }
}
