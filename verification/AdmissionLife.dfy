/** The credential and the time endpoint of a process over its whole life, for every role. */
module AdmissionLife {
  import opened Common
  import opened AdmissionModel
  import opened AdmissionRuns

  ghost predicate Run(env: Env, config: Config, steps: seq<Step>) {
    FreshIsSound(env, config);
    Executable(env, config, FRESH, steps)
  }

  /** The state a run leads to. */
  ghost function After(env: Env, config: Config, steps: seq<Step>): (m: Machine)
    requires Run(env, config, steps)
    ensures Invariant(env, config, m)
  {
    FreshIsSound(env, config);
    Execute(env, config, FRESH, steps)
  }

  // ---- what is installed is the latest success ----

  function LatestSuccess(results: seq<Result<Joined>>): Option<Joined> {
    if results == [] then None
    else if Last(results).Success? then Some(Last(results).value)
    else LatestSuccess(results[..|results| - 1])
  }

  /** Identity, credential and endpoint are those of the latest success; without one there are none. */
  ghost predicate Current(m: Machine) {
    match LatestSuccess(m.results)
    case None => m.local.None? && m.hello.None? && m.pulse == ""
    case Some(j) => m.local == Some(j.local) && m.hello == Some(j.hello) && m.pulse == j.pulse
  }

  lemma LatestOfOne(results: seq<Result<Joined>>, r: Result<Joined>)
    ensures LatestSuccess(results + [r]) == if r.Success? then Some(r.value) else LatestSuccess(results)
  {
    assert (results + [r])[..|results|] == results;
  }

  lemma ReportCurrent(m: Machine, code: Code)
    requires Current(m)
    ensures Current(Report(m, Failure(code)))
  {
    LatestOfOne(m.results, Failure(code));
  }

  lemma ConcludeCurrent(env: Env, config: Config, m: Machine)
    requires m.call.Some? && m.call.value.completion.Some? && (m.call.value.listing ==> m.hello.Some?) && Current(m)
    ensures Current(Conclude(env, config, m))
  {
    var t := Conclude(env, config, m);
    LatestOfOne(m.results, Last(t.results));
  }

  lemma StepCurrent(env: Env, config: Config, m: Machine, step: Step)
    requires Invariant(env, config, m) && Enabled(m, step) && Current(m)
    ensures Current(Next(env, config, m, step))
  {
    if step.DoPoll? && m.phase == Connecting {
      ReportCurrent(m, Cancelled);
      ReportCurrent(m, Timeout);
      var called := ArriveEarly(StartCall(config, m), step.early);
      if called.call.value.completion.Some? {
        ConcludeCurrent(env, config, called);
      }
    } else if step.DoPoll? && m.phase == Registration && m.call.value.completion.Some? {
      ConcludeCurrent(env, config, m);
    }
  }

  // ---- what is sent ----

  ghost predicate OnlyRegisters(m: Machine) {
    forall i :: 0 <= i < |m.sent| ==> m.sent[i] == Register
  }

  lemma StepRegisters(env: Env, config: Config, m: Machine, step: Step)
    requires Invariant(env, config, m) && Enabled(m, step) && config.role != Star
    ensures Next(env, config, m, step).sent == m.sent || Next(env, config, m, step).sent == m.sent + [Register]
  {
  }

  lemma {:induction false} LatestFrom(env: Env, config: Config, m: Machine, steps: seq<Step>)
    requires Invariant(env, config, m) && Executable(env, config, m, steps) && Current(m)
    requires config.role != Star ==> OnlyRegisters(m)
    ensures Current(Execute(env, config, m, steps))
    ensures config.role != Star ==> OnlyRegisters(Execute(env, config, m, steps))
    decreases |steps|
  {
    if steps != [] {
      StepKeeps(env, config, m, steps[0]);
      StepCurrent(env, config, m, steps[0]);
      if config.role != Star {
        StepRegisters(env, config, m, steps[0]);
      }
      LatestFrom(env, config, Next(env, config, m, steps[0]), steps[1..]);
    }
  }

  /**
   * In every run what is installed is what the latest success carried; a process that is not a Star
   * has only ever sent Register.
   */
  lemma LatestIsInstalled(env: Env, config: Config, steps: seq<Step>)
    requires Run(env, config, steps)
    ensures Current(After(env, config, steps))
    ensures config.role != Star ==> OnlyRegisters(After(env, config, steps))
  {
    FreshIsSound(env, config);
    LatestFrom(env, config, FRESH, steps);
  }

  // ---- one attempt ----

  /** A whole attempt: begin, and a poll that finds the channel ready and the answer there. */
  function Attempt(r: Response, directory: seq<Bytes>): seq<Step> {
    [DoBegin, DoPoll(false, true, Some(Completion(RpcOk, r, directory)))]
  }

  lemma AttemptRuns(env: Env, config: Config, m: Machine, r: Response, directory: seq<Bytes>)
    requires Invariant(env, config, m) && m.phase == Idle && !m.cancelled
    ensures Executable(env, config, m, Attempt(r, directory))
    ensures var called := Arrive(StartCall(config, Begin(m)), Completion(RpcOk, r, directory));
            && (called.call.value.listing ==> called.hello.Some?)
            && Execute(env, config, m, Attempt(r, directory)) == Conclude(env, config, called)
  {
    var steps := Attempt(r, directory);
    StepKeeps(env, config, m, steps[0]);
    var begun := Next(env, config, m, steps[0]);
    StepKeeps(env, config, begun, steps[1]);
    assert steps[1..][1..] == [] && steps[1..][0] == steps[1];
    assert Execute(env, config, begun, steps[1..]) == Next(env, config, begun, steps[1]);
  }

  /** A registration that is accepted. */
  lemma Registered(env: Env, config: Config, m: Machine, r: Response)
    requires Invariant(env, config, m) && m.phase == Idle && !m.cancelled && config.role != Star
    requires Validate(env, config, m.local, r).Success?
    ensures Executable(env, config, m, Attempt(r, []))
    ensures var t := Execute(env, config, m, Attempt(r, []));
            && t.phase == Idle && !t.cancelled
            && t.local == Some(Validate(env, config, m.local, r).value.local)
            && t.hello == Some(Hello(config.maxFrame, r.admission, r.signature))
  {
    AttemptRuns(env, config, m, r, []);
  }

  // ---- for whom the credential is fixed ----

  /** The credential a run has installed is still there after any continuation. */
  ghost predicate Keeps(env: Env, config: Config, steps: seq<Step>, more: seq<Step>) {
    Run(env, config, steps) && After(env, config, steps).local.Some? ==>
      Executable(env, config, After(env, config, steps), more) ==>
        Execute(env, config, After(env, config, steps), more).hello == After(env, config, steps).hello
  }

  /** A Pulsar that signs anything for this process. */
  function Lenient(config: Config): Env {
    var local := Member(config.galaxy, [], [], config.advertise, 0, config.role, config.group);
    Env((admission, signature) => Some(local), encoded => None, text => Some(text), [])
  }

  function Issue(admission: Bytes): Response {
    Response("", [], admission, [])
  }

  lemma LenientAccepts(config: Config, admission: Bytes, prior: Option<Member>)
    requires config.role != Star
    requires prior == None || prior == Lenient(config).verify(admission, [])
    ensures Validate(Lenient(config), config, prior, Issue(admission)).Success?
    ensures Some(Validate(Lenient(config), config, prior, Issue(admission)).value.local) ==
            Lenient(config).verify([], [])
  {
  }

  /** Two attempts whose answers differ in the credential. */
  lemma Reissued(config: Config) returns (env: Env, steps: seq<Step>, more: seq<Step>)
    requires config.role != Star
    ensures !Keeps(env, config, steps, more)
  {
    env, steps, more := Lenient(config), Attempt(Issue([1]), []), Attempt(Issue([2]), []);
    FreshIsSound(env, config);
    LenientAccepts(config, [1], None);
    Registered(env, config, FRESH, Issue([1]));
    var m := After(env, config, steps);
    LenientAccepts(config, [2], m.local);
    Registered(env, config, m, Issue([2]));
  }

  /** The documented promise of a fixed credential holds for Stars and for no other role. */
  lemma CredentialIsFixedExactly(config: Config)
    ensures (forall env, steps, more :: Keeps(env, config, steps, more)) <==> config.role == Star
  {
    if config.role == Star {
      forall env, steps, more
        ensures Keeps(env, config, steps, more)
      {
        if Run(env, config, steps) && After(env, config, steps).local.Some? &&
           Executable(env, config, After(env, config, steps), more) {
          AdmissionIsPermanent(env, config, After(env, config, steps), more);
        }
      }
    } else {
      var env, steps, more := Reissued(config);
    }
  }

  // ---- when the endpoint of a Star is fixed ----

  /** Whoever has been admitted fits its configuration, and a Star has been seen in a directory. */
  ghost predicate Listable(env: Env, config: Config, m: Machine) {
    m.local.Some? ==>
      && LocalMatches(env, config, None, m.local.value)
      && (config.role == Star ==> config.maxMembers >= 1 && exists e :: env.decode(e) == m.local)
  }

  lemma AcceptedIsListable(env: Env, config: Config, prior: Option<Member>, r: Response)
    requires Validate(env, config, prior, r).Success?
    ensures var j := Validate(env, config, prior, r).value;
            && LocalMatches(env, config, None, j.local)
            && (config.role == Star ==> config.maxMembers >= 1 && exists e :: env.decode(e) == Some(j.local))
  {
    ValidateMeaning(env, config, prior, r);
    AcceptedDirectory(env, config, prior, r);
  }

  lemma ConcludeListable(env: Env, config: Config, m: Machine)
    requires m.call.Some? && m.call.value.completion.Some? && (m.call.value.listing ==> m.hello.Some?)
    requires Listable(env, config, m)
    ensures Listable(env, config, Conclude(env, config, m))
  {
    var r := Validate(env, config, m.local, Answer(m, m.call.value));
    if r.Success? {
      AcceptedIsListable(env, config, m.local, Answer(m, m.call.value));
    }
  }

  lemma StepListable(env: Env, config: Config, m: Machine, step: Step)
    requires Invariant(env, config, m) && Enabled(m, step) && Listable(env, config, m)
    ensures Listable(env, config, Next(env, config, m, step))
  {
    if step.DoPoll? && m.phase == Connecting {
      var called := ArriveEarly(StartCall(config, m), step.early);
      if called.call.value.completion.Some? {
        ConcludeListable(env, config, called);
      }
    } else if step.DoPoll? && m.phase == Registration && m.call.value.completion.Some? {
      ConcludeListable(env, config, m);
    }
  }

  lemma {:induction false} ListableFrom(env: Env, config: Config, m: Machine, steps: seq<Step>)
    requires Invariant(env, config, m) && Executable(env, config, m, steps) && Listable(env, config, m)
    ensures Listable(env, config, Execute(env, config, m, steps))
    decreases |steps|
  {
    if steps != [] {
      StepKeeps(env, config, m, steps[0]);
      StepListable(env, config, m, steps[0]);
      ListableFrom(env, config, Next(env, config, m, steps[0]), steps[1..]);
    }
  }

  /** The answer to a listing that names the Star itself is accepted, with the endpoint formatted again. */
  lemma ListingAccepted(env: Env, config: Config, m: Machine, e: Bytes)
    requires Invariant(env, config, m) && config.role == Star && m.local.Some?
    requires LocalMatches(env, config, None, m.local.value) && config.maxMembers >= 1 && env.decode(e) == m.local
    requires m.pulse != "" && env.format(m.pulse).Some?
    ensures var r := Response(m.pulse, [e], m.hello.value.admission, m.hello.value.signature);
            && Validate(env, config, m.local, r).Success?
            && Validate(env, config, m.local, r).value.pulse == env.format(m.pulse).value
  {
    assert [e][..0] == [];
    assert SortAll(env, config, m.local.value, []) == Success(Directory([], []));
    var empty: Directory := Directory([], []);
    assert empty.members + [m.local.value] == [m.local.value] && Last([e]) == e;
    assert SortOne(env, config, m.local.value, empty, e) == Success(Directory([m.local.value], []));
    assert SortAll(env, config, m.local.value, [e]) == Success(Directory([m.local.value], []));
  }

  /** From rest, an unstable endpoint is replaced by the next listing. */
  lemma RefreshChanges(env: Env, config: Config, m: Machine) returns (more: seq<Step>)
    requires Invariant(env, config, m) && Listable(env, config, m) && config.role == Star && m.local.Some?
    requires m.phase == Idle && !m.cancelled && !Stable(env, m.pulse)
    ensures Executable(env, config, m, more) && Execute(env, config, m, more).pulse != m.pulse
  {
    var e :| env.decode(e) == m.local;
    more := Attempt(Issue([]), [e]);
    AttemptRuns(env, config, m, Issue([]), [e]);
    ListingAccepted(env, config, m, e);
  }

  lemma OneStep(env: Env, config: Config, m: Machine, step: Step)
    requires Invariant(env, config, m) && Enabled(m, step)
    ensures Executable(env, config, m, [step]) && Execute(env, config, m, [step]) == Next(env, config, m, step)
  {
    StepKeeps(env, config, m, step);
    assert [step][1..] == [];
  }

  lemma {:induction false} Joining(env: Env, config: Config, m: Machine, first: seq<Step>, second: seq<Step>)
    requires Invariant(env, config, m) && Executable(env, config, m, first)
    requires Executable(env, config, Execute(env, config, m, first), second)
    ensures Executable(env, config, m, first + second)
    ensures Execute(env, config, m, first + second) == Execute(env, config, Execute(env, config, m, first), second)
    decreases |first|
  {
    if first == [] {
      assert first + second == second;
    } else {
      StepKeeps(env, config, m, first[0]);
      assert (first + second)[1..] == first[1..] + second;
      Joining(env, config, Next(env, config, m, first[0]), first[1..], second);
    }
  }

  const LOST := Completion(RpcFailed, Response("", [], [], []), [])

  /** The attempt in progress can be ended; unless its answer already changes the endpoint, nothing changes. */
  lemma ToRest(env: Env, config: Config, m: Machine) returns (steps: seq<Step>)
    requires Invariant(env, config, m) && !m.cancelled && m.local.Some?
    ensures Executable(env, config, m, steps)
    ensures var t := Execute(env, config, m, steps);
            t.pulse != m.pulse || (t.phase == Idle && !t.cancelled && t.local.Some? && t.pulse == m.pulse)
  {
    var poll := DoPoll(true, false, None);
    if m.phase == Idle {
      steps := [];
    } else if m.phase == Connecting || m.call.value.completion.Some? {
      steps := [poll];
      OneStep(env, config, m, poll);
    } else {
      OneStep(env, config, m, DoArrive(LOST));
      var t := Next(env, config, m, DoArrive(LOST));
      OneStep(env, config, t, poll);
      Joining(env, config, m, [DoArrive(LOST)], [poll]);
      steps := [DoArrive(LOST)] + [poll];
    }
  }

  ghost predicate PulseKeeps(env: Env, config: Config, m: Machine, more: seq<Step>)
    requires Invariant(env, config, m)
  {
    Executable(env, config, m, more) ==> Execute(env, config, m, more).pulse == m.pulse
  }

  lemma UnstableChanges(env: Env, config: Config, m: Machine) returns (more: seq<Step>)
    requires Invariant(env, config, m) && Listable(env, config, m) && config.role == Star && m.local.Some?
    requires !m.cancelled && !Stable(env, m.pulse)
    ensures !PulseKeeps(env, config, m, more)
  {
    more := ToRest(env, config, m);
    var t := Execute(env, config, m, more);
    if t.pulse == m.pulse {
      ListableFrom(env, config, m, more);
      var rest := RefreshChanges(env, config, t);
      Joining(env, config, m, more, rest);
      more := more + rest;
    }
  }

  /**
   * In every run: the time endpoint an admitted Star holds stays for ever exactly when the Star is
   * cancelled, or the formatter leaves the endpoint alone or refuses it.
   */
  lemma PulseIsFixedExactly(env: Env, config: Config, steps: seq<Step>)
    requires Run(env, config, steps) && config.role == Star && After(env, config, steps).local.Some?
    ensures var m := After(env, config, steps);
            (forall more :: PulseKeeps(env, config, m, more)) <==> m.cancelled || Stable(env, m.pulse)
  {
    var m := After(env, config, steps);
    FreshIsSound(env, config);
    ListableFrom(env, config, FRESH, steps);
    if m.cancelled {
      forall more | Executable(env, config, m, more)
        ensures Execute(env, config, m, more).pulse == m.pulse
      {
        CancelIsFinal(env, config, m, more);
      }
    } else if Stable(env, m.pulse) {
      forall more | Executable(env, config, m, more)
        ensures Execute(env, config, m, more).pulse == m.pulse
      {
        PulseIsFixed(env, config, m, more);
      }
    } else {
      var more := UnstableChanges(env, config, m);
    }
  }

  // ---- when the endpoint of another role is fixed ----

  /** The formatter never yields an endpoint. */
  ghost predicate Mute(env: Env) {
    forall text :: text != "" ==> env.format(text) == None || env.format(text) == Some("")
  }

  lemma MuteStep(env: Env, config: Config, m: Machine, step: Step)
    requires Invariant(env, config, m) && Enabled(m, step) && m.pulse == "" && Mute(env)
    ensures Next(env, config, m, step).pulse == ""
  {
    if step.DoPoll? && m.phase == Connecting {
      MuteSettle(env, config, ArriveEarly(StartCall(config, m), step.early));
    } else if step.DoPoll? {
      MuteSettle(env, config, m);
    }
  }

  lemma MuteSettle(env: Env, config: Config, m: Machine)
    requires m.call.Some? ==> m.call.value.listing ==> m.hello.Some?
    requires m.pulse == "" && Mute(env)
    ensures Settle(env, config, m).pulse == ""
  {
  }

  lemma {:induction false} MuteRun(env: Env, config: Config, m: Machine, steps: seq<Step>)
    requires Invariant(env, config, m) && Executable(env, config, m, steps) && m.pulse == "" && Mute(env)
    ensures Execute(env, config, m, steps).pulse == ""
    decreases |steps|
  {
    if steps != [] {
      StepKeeps(env, config, m, steps[0]);
      MuteStep(env, config, m, steps[0]);
      MuteRun(env, config, Next(env, config, m, steps[0]), steps[1..]);
    }
  }

  /** The credential a process holds is good for another registration, with any endpoint that can be formatted. */
  lemma AgainAccepted(env: Env, config: Config, m: Machine, text: string) returns (r: Response)
    requires Invariant(env, config, m) && Listable(env, config, m) && config.role != Star && m.local.Some?
    requires text == "" || env.format(text).Some?
    ensures Validate(env, config, m.local, r).Success?
    ensures Validate(env, config, m.local, r).value.pulse == if text == "" then "" else env.format(text).value
  {
    r := Response(text, [], m.hello.value.admission, m.hello.value.signature);
  }

  lemma AgainChanges(env: Env, config: Config, m: Machine) returns (more: seq<Step>)
    requires Invariant(env, config, m) && Listable(env, config, m) && config.role != Star && m.local.Some?
    requires m.phase == Idle && !m.cancelled && !(m.pulse == "" && Mute(env))
    ensures Executable(env, config, m, more) && Execute(env, config, m, more).pulse != m.pulse
  {
    var text := "";
    if m.pulse == "" {
      text :| text != "" && env.format(text) != None && env.format(text) != Some("");
    }
    var r := AgainAccepted(env, config, m, text);
    more := Attempt(r, []);
    AttemptRuns(env, config, m, r, []);
  }

  lemma OthersChange(env: Env, config: Config, m: Machine) returns (more: seq<Step>)
    requires Invariant(env, config, m) && Listable(env, config, m) && config.role != Star && m.local.Some?
    requires !m.cancelled && !(m.pulse == "" && Mute(env))
    ensures !PulseKeeps(env, config, m, more)
  {
    more := ToRest(env, config, m);
    var t := Execute(env, config, m, more);
    if t.pulse == m.pulse {
      ListableFrom(env, config, m, more);
      var rest := AgainChanges(env, config, t);
      Joining(env, config, m, more, rest);
      more := more + rest;
    }
  }

  /** In every run: the endpoint of another role stays exactly when it is cancelled or there is no endpoint to have. */
  lemma OthersPulseExactly(env: Env, config: Config, steps: seq<Step>)
    requires Run(env, config, steps) && config.role != Star && After(env, config, steps).local.Some?
    ensures var m := After(env, config, steps);
            (forall more :: PulseKeeps(env, config, m, more)) <==> m.cancelled || (m.pulse == "" && Mute(env))
  {
    var m := After(env, config, steps);
    FreshIsSound(env, config);
    ListableFrom(env, config, FRESH, steps);
    if m.cancelled {
      forall more | Executable(env, config, m, more)
        ensures Execute(env, config, m, more).pulse == m.pulse
      {
        CancelIsFinal(env, config, m, more);
      }
    } else if m.pulse == "" && Mute(env) {
      forall more | Executable(env, config, m, more)
        ensures Execute(env, config, m, more).pulse == m.pulse
      {
        MuteRun(env, config, m, more);
      }
    } else {
      var more := OthersChange(env, config, m);
    }
  }
}
