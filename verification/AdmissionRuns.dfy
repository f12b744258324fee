/** Attempts of one process over its whole life: begin, poll, cancel and RPC completions in any order. */
module AdmissionRuns {
  import opened Common
  import opened AdmissionModel

  datatype Phase = Idle | Connecting | Registration

  datatype Rpc = RpcOk | Unauthenticated | PermissionDenied | RpcFailed

  /** What a finished RPC left in its buffers. */
  datatype Completion = Completion(status: Rpc, response: Response, directory: seq<Bytes>)

  datatype Call = Call(listing: bool, completion: Option<Completion>)

  datatype Request = Register | List(admission: Bytes, signature: Bytes)

  datatype Machine = Machine(
    phase: Phase, cancelled: bool, revoked: bool,
    local: Option<Member>, hello: Option<Hello>, pulse: string, call: Option<Call>,
    // History: accepted begins, poll results and RPCs sent.
    begins: nat, results: seq<Result<Joined>>, sent: seq<Request>)

  const FRESH := Machine(Idle, false, false, None, None, "", None, 0, [], [])

  // ---- steps ----

  function Begin(m: Machine): Machine {
    if m.phase != Idle || m.cancelled then m
    else m.(phase := Connecting, begins := m.begins + 1)
  }

  /** A Star that has been admitted only asks for the directory. */
  function StartCall(config: Config, m: Machine): Machine {
    if config.role == Star && m.hello.Some? then
      m.(phase := Registration, call := Some(Call(true, None)),
         sent := m.sent + [List(m.hello.value.admission, m.hello.value.signature)])
    else
      m.(phase := Registration, call := Some(Call(false, None)), sent := m.sent + [Register])
  }

  function Arrive(m: Machine, c: Completion): Machine
    requires m.call.Some?
  {
    m.(call := Some(m.call.value.(completion := Some(c))))
  }

  /** Hand one result to the caller. */
  function Report(m: Machine, r: Result<Joined>): Machine {
    m.(phase := Idle, call := None, results := m.results + [r])
  }

  function Install(m: Machine, j: Joined): Machine {
    m.(local := Some(j.local), hello := Some(j.hello), pulse := j.pulse)
  }

  /** A listing is checked as if it carried the credential the process already holds. */
  function Answer(m: Machine, call: Call): Response
    requires call.completion.Some? && (call.listing ==> m.hello.Some?)
  {
    if call.listing then
      Response(m.pulse, call.completion.value.directory, m.hello.value.admission, m.hello.value.signature)
    else call.completion.value.response
  }

  /** Consume a finished call. */
  function Conclude(env: Env, config: Config, m: Machine): Machine
    requires m.call.Some? && m.call.value.completion.Some? && (m.call.value.listing ==> m.hello.Some?)
  {
    var call := m.call.value;
    var status := call.completion.value.status;
    var t := if call.listing && (status == Unauthenticated || status == PermissionDenied) then m.(revoked := true)
             else m;
    if m.cancelled then Report(t, Failure(Cancelled))
    else if status != RpcOk then Report(t, Failure(Transport))
    else
      var r := Validate(env, config, m.local, Answer(m, call));
      Report(if r.Success? then Install(t, r.value) else t, r)
  }

  /** Deliver a completion that arrives while the call is being started. */
  function ArriveEarly(m: Machine, early: Option<Completion>): Machine
    requires m.call.Some?
  {
    if early.Some? then Arrive(m, early.value) else m
  }

  function Settle(env: Env, config: Config, m: Machine): Machine
    requires m.call.Some? ==> m.call.value.listing ==> m.hello.Some?
  {
    if m.call.Some? && m.call.value.completion.Some? then Conclude(env, config, m) else m
  }

  function Poll(env: Env, config: Config, m: Machine, expired: bool, ready: bool, early: Option<Completion>): Machine
    requires m.call.Some? ==> m.phase == Registration && (m.call.value.listing ==> m.hello.Some?)
  {
    match m.phase
    case Idle => m
    case Connecting =>
      if m.cancelled then Report(m, Failure(Cancelled))
      else if expired then Report(m, Failure(Timeout))
      else if !ready then m
      else Settle(env, config, ArriveEarly(StartCall(config, m), early))
    case Registration => Settle(env, config, m)
  }

  function Cancel(m: Machine): Machine {
    m.(cancelled := true)
  }

  datatype Step =
    | DoBegin
    | DoPoll(expired: bool, ready: bool, early: Option<Completion>)
    | DoArrive(completion: Completion)
    | DoCancel

  predicate Enabled(m: Machine, step: Step) {
    step.DoArrive? ==> m.call.Some? && m.call.value.completion.None?
  }

  function Next(env: Env, config: Config, m: Machine, step: Step): Machine
    requires Invariant(env, config, m) && Enabled(m, step)
  {
    match step
    case DoBegin => Begin(m)
    case DoPoll(expired, ready, early) => Poll(env, config, m, expired, ready, early)
    case DoArrive(c) => Arrive(m, c)
    case DoCancel => Cancel(m)
  }

  // ---- the invariant ----

  /** Whatever was handed out agrees with the installed identity. */
  ghost predicate Consistent(config: Config, m: Machine) {
    forall i {:trigger m.results[i]} :: 0 <= i < |m.results| && m.results[i].Success? ==>
      && m.local == Some(m.results[i].value.local)
      && (config.role == Star ==> m.hello == Some(m.results[i].value.hello))
  }

  ghost predicate Admitted(m: Machine) {
    exists i :: 0 <= i < |m.results| && m.results[i].Success?
  }

  ghost predicate Invariant(env: Env, config: Config, m: Machine) {
    && (m.call.Some? <==> m.phase == Registration)
    && m.begins == |m.results| + (if m.phase == Idle then 0 else 1)
    && (m.local.Some? <==> m.hello.Some?) && (m.local.Some? <==> Admitted(m))
    && (m.hello.Some? ==> env.verify(m.hello.value.admission, m.hello.value.signature) == m.local
                          && m.hello.value.maxFrame == config.maxFrame)
    && (m.call.Some? && m.call.value.listing ==> config.role == Star && m.hello.Some?)
    && (m.call.Some? && !m.call.value.listing && config.role == Star ==> m.hello.None?)
    && (m.revoked ==> m.local.Some?)
    && Consistent(config, m)
  }

  lemma ValidateKeepsIdentity(env: Env, config: Config, prior: Option<Member>, r: Response)
    requires Validate(env, config, prior, r).Success?
    ensures var j := Validate(env, config, prior, r).value;
            && env.verify(r.admission, r.signature) == Some(j.local)
            && (prior.Some? ==> prior == Some(j.local))
            && j.hello == Hello(config.maxFrame, r.admission, r.signature)
  {
  }

  lemma ReportFailureKeeps(env: Env, config: Config, m: Machine, revoked: bool, code: Code)
    requires Invariant(env, config, m) && m.phase != Idle && (revoked ==> m.local.Some?)
    ensures Invariant(env, config, Report(m.(revoked := revoked), Failure(code)))
  {
    var t := Report(m.(revoked := revoked), Failure(code));
    assert t.results[..|m.results|] == m.results;
    assert forall i :: 0 <= i < |m.results| ==> t.results[i] == m.results[i];
    if Admitted(m) {
      var i :| 0 <= i < |m.results| && m.results[i].Success?;
      assert t.results[i].Success?;
    }
  }

  lemma ReportSuccessKeeps(env: Env, config: Config, m: Machine, j: Joined)
    requires Invariant(env, config, m) && m.phase != Idle
    requires env.verify(j.hello.admission, j.hello.signature) == Some(j.local) && j.hello.maxFrame == config.maxFrame
    requires m.local.Some? ==> m.local == Some(j.local)
    requires config.role == Star && m.hello.Some? ==> m.hello == Some(j.hello)
    ensures Invariant(env, config, Report(Install(m, j), Success(j)))
  {
    var t := Report(Install(m, j), Success(j));
    assert forall i :: 0 <= i < |m.results| ==> t.results[i] == m.results[i];
    assert t.results[|m.results|].Success?;
  }

  lemma ConcludeKeeps(env: Env, config: Config, m: Machine)
    requires Invariant(env, config, m) && m.call.Some? && m.call.value.completion.Some?
    ensures Invariant(env, config, Conclude(env, config, m))
  {
    var call := m.call.value;
    var status := call.completion.value.status;
    var revoked := m.revoked || (call.listing && (status == Unauthenticated || status == PermissionDenied));
    if m.cancelled {
      ReportFailureKeeps(env, config, m, revoked, Cancelled);
    } else if status != RpcOk {
      ReportFailureKeeps(env, config, m, revoked, Transport);
    } else {
      var r := Validate(env, config, m.local, Answer(m, call));
      if r.Success? {
        ValidateKeepsIdentity(env, config, m.local, Answer(m, call));
        ReportSuccessKeeps(env, config, m, r.value);
      } else {
        ReportFailureKeeps(env, config, m, revoked, r.code);
      }
    }
  }

  lemma SettleKeeps(env: Env, config: Config, m: Machine)
    requires Invariant(env, config, m)
    ensures Invariant(env, config, Settle(env, config, m))
  {
    if m.call.Some? && m.call.value.completion.Some? {
      ConcludeKeeps(env, config, m);
    }
  }

  /** Fields that neither the results nor the identity depend on. */
  lemma CallApart(env: Env, config: Config, m: Machine, t: Machine)
    requires Invariant(env, config, m) && t == m.(phase := t.phase, call := t.call, sent := t.sent, begins := t.begins)
    requires t.call.Some? <==> t.phase == Registration
    requires t.begins == |m.results| + (if t.phase == Idle then 0 else 1)
    requires t.call.Some? && t.call.value.listing ==> config.role == Star && m.hello.Some?
    requires t.call.Some? && !t.call.value.listing && config.role == Star ==> m.hello.None?
    ensures Invariant(env, config, t)
  {
    assert t.results == m.results;
  }

  lemma StepKeeps(env: Env, config: Config, m: Machine, step: Step)
    requires Invariant(env, config, m) && Enabled(m, step)
    ensures Invariant(env, config, Next(env, config, m, step))
  {
    match step
    case DoBegin => CallApart(env, config, m, Begin(m));
    case DoArrive(c) => CallApart(env, config, m, Arrive(m, c));
    case DoCancel => assert Cancel(m).results == m.results;
    case DoPoll(expired, ready, early) =>
      match m.phase
      case Idle =>
      case Registration => SettleKeeps(env, config, m);
      case Connecting =>
        ReportFailureKeeps(env, config, m, m.revoked, Cancelled);
        ReportFailureKeeps(env, config, m, m.revoked, Timeout);
        CallApart(env, config, m, ArriveEarly(StartCall(config, m), early));
        SettleKeeps(env, config, ArriveEarly(StartCall(config, m), early));
  }

  // ---- runs ----

  ghost predicate Executable(env: Env, config: Config, m: Machine, steps: seq<Step>)
    requires Invariant(env, config, m)
    decreases |steps|
  {
    steps == [] ||
    (Enabled(m, steps[0]) &&
     (StepKeeps(env, config, m, steps[0]); Executable(env, config, Next(env, config, m, steps[0]), steps[1..])))
  }

  ghost function Execute(env: Env, config: Config, m: Machine, steps: seq<Step>): (m': Machine)
    requires Invariant(env, config, m) && Executable(env, config, m, steps)
    ensures Invariant(env, config, m')
    decreases |steps|
  {
    if steps == [] then m
    else
      StepKeeps(env, config, m, steps[0]);
      Execute(env, config, Next(env, config, m, steps[0]), steps[1..])
  }

  lemma FreshIsSound(env: Env, config: Config)
    ensures Invariant(env, config, FRESH)
  {
  }

  lemma StepGrows(env: Env, config: Config, m: Machine, step: Step)
    requires Invariant(env, config, m) && Enabled(m, step)
    ensures var t := Next(env, config, m, step);
            m.results <= t.results && m.sent <= t.sent && (m.revoked ==> t.revoked) && (m.cancelled ==> t.cancelled)
  {
    if step.DoPoll? {
      if m.phase == Registration {
        SettleGrows(env, config, m);
      } else if m.phase == Connecting {
        SettleGrows(env, config, ArriveEarly(StartCall(config, m), step.early));
      }
    }
  }

  lemma SettleGrows(env: Env, config: Config, m: Machine)
    requires m.call.Some? ==> m.call.value.listing ==> m.hello.Some?
    ensures var t := Settle(env, config, m);
            m.results <= t.results && t.sent == m.sent && (m.revoked ==> t.revoked) && t.cancelled == m.cancelled
  {
  }

  /** A success that was handed out stays handed out, so the identity behind it stays too. */
  lemma SuccessPins(env: Env, config: Config, m: Machine, t: Machine)
    requires Invariant(env, config, m) && Invariant(env, config, t) && m.results <= t.results && m.local.Some?
    ensures t.local == m.local && (config.role == Star ==> t.hello == m.hello)
  {
    var i :| 0 <= i < |m.results| && m.results[i].Success?;
    assert t.results[i] == m.results[i];
  }

  /** One step never forgets results or requests, an identity or a revocation. */
  lemma StepExtends(env: Env, config: Config, m: Machine, step: Step)
    requires Invariant(env, config, m) && Enabled(m, step)
    ensures var t := Next(env, config, m, step);
            && m.results <= t.results && m.sent <= t.sent
            && (m.revoked ==> t.revoked) && (m.cancelled ==> t.cancelled)
            && (m.local.Some? ==> t.local == m.local)
            && (m.local.Some? && config.role == Star ==> t.hello == m.hello)
  {
    StepGrows(env, config, m, step);
    StepKeeps(env, config, m, step);
    if m.local.Some? {
      SuccessPins(env, config, m, Next(env, config, m, step));
    }
  }

  /** A Star with an identity sends nothing but listings under that identity. */
  lemma StarOnlyLists(env: Env, config: Config, m: Machine, step: Step)
    requires Invariant(env, config, m) && Enabled(m, step) && config.role == Star && m.hello.Some?
    ensures var t := Next(env, config, m, step);
            forall i :: |m.sent| <= i < |t.sent| ==> t.sent[i] == List(m.hello.value.admission, m.hello.value.signature)
  {
  }

  /** All successes of a run carry one identity. */
  lemma OneIdentity(env: Env, config: Config, steps: seq<Step>, i: nat, j: nat)
    requires Invariant(env, config, FRESH) && Executable(env, config, FRESH, steps)
    requires i < |Execute(env, config, FRESH, steps).results| && j < |Execute(env, config, FRESH, steps).results|
    requires Execute(env, config, FRESH, steps).results[i].Success?
    requires Execute(env, config, FRESH, steps).results[j].Success?
    ensures var r := Execute(env, config, FRESH, steps).results;
            && r[i].value.local == r[j].value.local
            && (config.role == Star ==> r[i].value.hello == r[j].value.hello)
  {
    var m := Execute(env, config, FRESH, steps);
    assert m.results[i].Success? && m.results[j].Success?;
  }

  /**
   * From the first success on, whatever happens: the identity stays; a Star keeps its credential
   * and never registers again.
   */
  lemma {:induction false} AdmissionIsPermanent(env: Env, config: Config, m: Machine, steps: seq<Step>)
    requires Invariant(env, config, m) && Executable(env, config, m, steps) && m.local.Some?
    ensures var t := Execute(env, config, m, steps);
            && t.local == m.local && m.sent <= t.sent
            && (config.role == Star ==>
                  && t.hello == m.hello
                  && forall i :: |m.sent| <= i < |t.sent| ==>
                    t.sent[i] == List(m.hello.value.admission, m.hello.value.signature))
    decreases |steps|
  {
    if steps != [] {
      StepKeeps(env, config, m, steps[0]);
      StepExtends(env, config, m, steps[0]);
      if config.role == Star {
        StarOnlyLists(env, config, m, steps[0]);
      }
      AdmissionIsPermanent(env, config, Next(env, config, m, steps[0]), steps[1..]);
    }
  }

  /** A poll that reports a failure leaves the identity, the credential and the endpoint alone. */
  lemma FailureChangesNothing(env: Env, config: Config, m: Machine, step: Step)
    requires Invariant(env, config, m) && Enabled(m, step)
    requires Next(env, config, m, step).results == m.results || Last(Next(env, config, m, step).results).Failure?
    ensures var t := Next(env, config, m, step);
            t.local == m.local && t.hello == m.hello && t.pulse == m.pulse
  {
    if step.DoPoll? && m.phase == Connecting && !m.cancelled && !step.expired && step.ready {
      SettleFailure(env, config, ArriveEarly(StartCall(config, m), step.early));
    } else if step.DoPoll? && m.phase == Registration {
      SettleFailure(env, config, m);
    }
  }

  lemma SettleFailure(env: Env, config: Config, m: Machine)
    requires m.call.Some? ==> m.call.value.listing ==> m.hello.Some?
    ensures var t := Settle(env, config, m);
            || (t.local == m.local && t.hello == m.hello && t.pulse == m.pulse)
            || (t.results != m.results && Last(t.results).Success?)
  {
  }

  lemma CancelledStep(env: Env, config: Config, m: Machine, step: Step)
    requires Invariant(env, config, m) && Enabled(m, step) && m.cancelled
    ensures var t := Next(env, config, m, step);
            && t.sent == m.sent && t.begins == m.begins
            && t.local == m.local && t.hello == m.hello && t.pulse == m.pulse
            && (t.results == m.results || t.results == m.results + [Failure(Cancelled)])
  {
  }

  /**
   * After cancel no RPC is sent, no success is returned and the identity is frozen; the attempt
   * in progress, if any, still yields its one result.
   */
  lemma {:induction false} CancelIsFinal(env: Env, config: Config, m: Machine, steps: seq<Step>)
    requires Invariant(env, config, m) && Executable(env, config, m, steps) && m.cancelled
    ensures var t := Execute(env, config, m, steps);
            && t.cancelled && t.sent == m.sent && t.begins == m.begins
            && t.local == m.local && t.hello == m.hello && t.pulse == m.pulse
            && (t.results == m.results || (m.phase != Idle && t.results == m.results + [Failure(Cancelled)]))
    decreases |steps|
  {
    if steps != [] {
      var t := Next(env, config, m, steps[0]);
      StepKeeps(env, config, m, steps[0]);
      StepExtends(env, config, m, steps[0]);
      CancelledStep(env, config, m, steps[0]);
      CancelIsFinal(env, config, t, steps[1..]);
    }
  }

  /** Each accepted begin yields one result, and a call object exists exactly while registering. */
  lemma OneResultPerBegin(env: Env, config: Config, steps: seq<Step>)
    requires Invariant(env, config, FRESH) && Executable(env, config, FRESH, steps)
    ensures var m := Execute(env, config, FRESH, steps);
            && m.begins == |m.results| + (if m.phase == Idle then 0 else 1)
            && (m.call.Some? <==> m.phase == Registration)
            && (m.revoked ==> exists i :: 0 <= i < |m.results| && m.results[i].Success?)
  {
  }

  lemma {:induction false} RevocationIsSticky(env: Env, config: Config, m: Machine, steps: seq<Step>)
    requires Invariant(env, config, m) && Executable(env, config, m, steps) && m.revoked
    ensures Execute(env, config, m, steps).revoked
    decreases |steps|
  {
    if steps != [] {
      StepKeeps(env, config, m, steps[0]);
      StepExtends(env, config, m, steps[0]);
      RevocationIsSticky(env, config, Next(env, config, m, steps[0]), steps[1..]);
    }
  }

  /** Formatting the endpoint again leaves it alone or is refused. */
  predicate Stable(env: Env, pulse: string) {
    pulse == "" || env.format(pulse).None? || env.format(pulse) == Some(pulse)
  }

  lemma PulseStep(env: Env, config: Config, m: Machine, step: Step)
    requires Invariant(env, config, m) && Enabled(m, step) && config.role == Star && m.local.Some?
    requires Stable(env, m.pulse)
    ensures Next(env, config, m, step).pulse == m.pulse
  {
  }

  /** A stable time endpoint of an admitted Star stays what it was. */
  lemma {:induction false} PulseIsFixed(env: Env, config: Config, m: Machine, steps: seq<Step>)
    requires Invariant(env, config, m) && Executable(env, config, m, steps) && config.role == Star && m.local.Some?
    requires Stable(env, m.pulse)
    ensures Execute(env, config, m, steps).pulse == m.pulse
    decreases |steps|
  {
    if steps != [] {
      StepKeeps(env, config, m, steps[0]);
      StepExtends(env, config, m, steps[0]);
      PulseStep(env, config, m, steps[0]);
      PulseIsFixed(env, config, Next(env, config, m, steps[0]), steps[1..]);
    }
  }
}
