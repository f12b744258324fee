/** The admission object: one process, one call at a time, fields updated in place. */
module AdmissionObject {
  import opened Common
  import opened AdmissionModel
  import R = AdmissionRuns

  class Admission {
    const env: Env
    const config: Config
    var phase: R.Phase
    var cancelled: bool
    var revoked: bool
    var local: Option<Member>
    var hello: Option<Hello>
    var pulse: string
    var call: Option<R.Call>
    ghost var begins: nat
    ghost var results: seq<Result<Joined>>
    ghost var sent: seq<R.Request>

    ghost function State(): R.Machine
      reads this
    {
      R.Machine(phase, cancelled, revoked, local, hello, pulse, call, begins, results, sent)
    }

    ghost predicate Valid()
      reads this
    {
      R.Invariant(env, config, State())
    }

    constructor (env: Env, config: Config)
      ensures this.env == env && this.config == config && State() == R.FRESH && Valid()
    {
      this.env, this.config := env, config;
      phase, cancelled, revoked := R.Idle, false, false;
      local, hello, pulse, call := None, None, "", None;
      begins, results, sent := 0, [], [];
    }

    method Begin()
      requires Valid()
      modifies this
      ensures Valid() && State() == R.Begin(old(State()))
    {
      R.StepKeeps(env, config, State(), R.DoBegin);
      if phase != R.Idle || cancelled {
        return;
      }
      phase := R.Connecting;
      begins := begins + 1;
    }

    method Cancel()
      requires Valid()
      modifies this`cancelled
      ensures Valid() && State() == R.Cancel(old(State()))
    {
      R.StepKeeps(env, config, State(), R.DoCancel);
      cancelled := true;
    }

    /** The RPC callback only fills the buffers of its own call. */
    method Completed(c: R.Completion)
      requires Valid() && call.Some? && call.value.completion.None?
      modifies this`call
      ensures Valid() && State() == R.Arrive(old(State()), c)
    {
      R.StepKeeps(env, config, State(), R.DoArrive(c));
      call := Some(call.value.(completion := Some(c)));
    }

    method StartRegistration()
      modifies this`phase, this`call, this`sent
      ensures State() == R.StartCall(config, old(State()))
    {
      phase := R.Registration;
      if config.role == Star && hello.Some? {
        call := Some(R.Call(true, None));
        sent := sent + [R.List(hello.value.admission, hello.value.signature)];
      } else {
        call := Some(R.Call(false, None));
        sent := sent + [R.Register];
      }
    }

    /** Split a directory into stars and services; the first bad entry ends the check. */
    method SortMembers(own: Member, encoded: seq<Bytes>) returns (r: Result<Directory>)
      ensures r == SortAll(env, config, own, encoded)
    {
      var d := Directory([], []);
      for i := 0 to |encoded|
        invariant SortAll(env, config, own, encoded[..i]) == Success(d)
      {
        assert encoded[..i + 1][..i] == encoded[..i];
        var step := SortOne(env, config, own, d, encoded[i]);
        if step.Failure? {
          SortStops(env, config, own, encoded, i + 1);
          return step;
        }
        d := step.value;
      }
      assert encoded[..|encoded|] == encoded;
      r := Success(d);
    }

    /** Check a response; the fields change only after every check has passed. */
    method ValidateResponse(response: Response) returns (r: Result<Joined>)
      modifies this`local, this`hello, this`pulse
      ensures r == Validate(env, config, old(local), response)
      ensures State() == if r.Success? then R.Install(old(State()), r.value) else old(State())
    {
      var endpoint := "";
      if response.pulse != "" {
        var formatted := env.format(response.pulse);
        if formatted.None? {
          return Failure(Identity);
        }
        endpoint := formatted.value;
      }
      if |response.members| > DIRECTORY || (config.role == Planet && |response.members| > CANDIDATES) {
        return Failure(Capacity);
      }
      var own := env.verify(response.admission, response.signature);
      if own.None? || !LocalMatches(env, config, local, own.value) {
        return Failure(Identity);
      }
      var sorted := SortMembers(own.value, response.members);
      if sorted.Failure? {
        return Failure(sorted.code);
      }
      var d := sorted.value;
      if |d.members| > config.maxMembers {
        return Failure(Capacity);
      }
      if config.role == Star && own.value !in d.members {
        return Failure(Identity);
      }
      if d.services != [] && exists m :: m in d.members && Clash(m, d.services[0]) {
        return Failure(Identity);
      }
      local := own;
      hello := Some(Hello(config.maxFrame, response.admission, response.signature));
      pulse := endpoint;
      r := Success(Joined(endpoint, own.value, d.members, hello.value, d.services));
    }

    /** Consume a finished call. */
    method Conclude() returns (r: Result<Joined>)
      requires Valid() && call.Some? && call.value.completion.Some?
      modifies this
      ensures State() == R.Conclude(env, config, old(State())) && Last(results) == r
    {
      var done := call.value;
      var outcome := done.completion.value;
      phase := R.Idle;
      call := None;
      if done.listing && (outcome.status == R.Unauthenticated || outcome.status == R.PermissionDenied) {
        revoked := true;
      }
      if cancelled {
        r := Failure(Cancelled);
      } else if outcome.status != R.RpcOk {
        r := Failure(Transport);
      } else if done.listing {
        r := ValidateResponse(Response(pulse, outcome.directory, hello.value.admission, hello.value.signature));
      } else {
        r := ValidateResponse(outcome.response);
      }
      results := results + [r];
    }

    /** The connecting phase: give up, wait, or send the RPC; `early` lands while it is being sent. */
    method Connect(expired: bool, ready: bool, early: Option<R.Completion>) returns (failure: Option<Result<Joined>>)
      requires Valid() && phase == R.Connecting
      modifies this
      ensures failure.Some? ==> State() == R.Report(old(State()), failure.value)
                                && failure.value == Failure(if cancelled then Cancelled else Timeout)
      ensures failure.Some? <==> old(cancelled) || expired
      ensures failure.None? ==> State() == if ready then R.ArriveEarly(R.StartCall(config, old(State())), early)
                                           else old(State())
    {
      if cancelled || expired {
        phase := R.Idle;
        failure := Some(Failure(if cancelled then Cancelled else Timeout));
        results := results + [failure.value];
        return;
      }
      if ready {
        StartRegistration();
        if early.Some? {
          call := Some(call.value.(completion := early));
        }
      }
      failure := None;
    }

    /** The registration phase: a finished call is consumed, an open one is left alone. */
    method Finish() returns (r: Option<Result<Joined>>)
      requires Valid()
      modifies this
      ensures State() == R.Settle(env, config, old(State()))
      ensures results == old(results) + (match r case None => [] case Some(result) => [result])
    {
      if phase == R.Registration && call.value.completion.Some? {
        var result := Conclude();
        return Some(result);
      }
      return None;
    }

    /** Drive the attempt forward and hand over its result once there is one. */
    method Poll(expired: bool, ready: bool, early: Option<R.Completion>) returns (r: Option<Result<Joined>>)
      requires Valid()
      modifies this
      ensures Valid() && State() == R.Poll(env, config, old(State()), expired, ready, early)
      ensures results == old(results) + (match r case None => [] case Some(result) => [result])
    {
      R.StepKeeps(env, config, State(), R.DoPoll(expired, ready, early));
      ghost var before := State();
      if phase == R.Connecting {
        r := Connect(expired, ready, early);
        if r.Some? {
          return;
        }
        R.CallApart(env, config, before, State());
      }
      r := Finish();
    }

    /** True while an attempt has not been consumed: one more begin than results. */
    method Pending() returns (pending: bool)
      requires Valid()
      ensures pending <==> begins == |results| + 1
    {
      pending := phase != R.Idle;
    }
  }

  /** Once a prefix fails, the whole list fails with the same code. */
  lemma {:induction false} SortStops(env: Env, config: Config, own: Member, encoded: seq<Bytes>, n: nat)
    requires n <= |encoded| && SortAll(env, config, own, encoded[..n]).Failure?
    ensures SortAll(env, config, own, encoded) == SortAll(env, config, own, encoded[..n])
    decreases |encoded|
  {
    if n < |encoded| {
      var front := encoded[..|encoded| - 1];
      assert front[..n] == encoded[..n];
      SortStops(env, config, own, front, n);
    } else {
      assert encoded[..n] == encoded;
    }
  }
}
