/** What a session has on record, and the messages that change it: the join and the progress reports. */
module PushRecord {
  import opened Common
  import opened PushTypes
  import opened Reactor
  import opened SessionModel
  import opened HubModel
  import opened PushLag
  import opened PushAnswers
  import opened PushHistory
  import opened PushTheorems
  import PushLog

  // ---- progress reports ----

  /** Bucket b of 100 microseconds takes this delay, in nanoseconds; the first and the last have one edge only. */
  predicate InBucket(b: nat, delay: int) {
    && b <= 100_000
    && (b > 0 ==> b * 100_000 <= delay)
    && (b < 100_000 ==> delay < (b + 1) * 100_000)
  }

  /** A report that is counted: newer than the last one, and of a revision that exists. */
  predicate Counts(h: Hub, s: Session, r: nat) {
    s.lastProgress < r <= h.revision
  }

  /** A counted report is a sample of this delay while fewer than 16384 revisions follow, and expired after that. */
  ghost predicate CountedAs(s: Session, t: Session, r: nat, newest: nat, delay: int) {
    && t.lastProgress == r
    && t.joined == s.joined && t.joinPoint == s.joinPoint && t.joinTable == s.joinTable
    && if newest - r < 16384 then
         t.expired == s.expired && exists b :: InBucket(b, delay) && t.recorded == s.recorded + [b]
       else t.expired == s.expired + 1 && t.recorded == s.recorded
  }

  /** The sample of a report, told without the stamp table. */
  lemma SampleIs(h: Hub, r: nat, now: int)
    requires 0 < r <= h.revision == |h.schedule|
    ensures Sample(h, r, now).Some? <==> h.revision - r < 16384
    ensures Sample(h, r, now).Some? ==> InBucket(Sample(h, r, now).value, now - h.schedule[r - 1])
  {
    SampledIffRecent(h, r);
    BucketBounds(now - h.schedule[r - 1]);
  }

  lemma NotedAs(s: Session, r: nat, bucket: Option<nat>, newest: nat, delay: int)
    requires bucket.Some? ==> bucket.value < |s.histogram| && InBucket(bucket.value, delay)
    requires r <= newest && (bucket.Some? <==> newest - r < 16384)
    ensures CountedAs(s, Note(s, r, bucket), r, newest, delay)
  {
  }

  lemma ObservedAs(h: Hub, s: Session, r: nat, now: int)
    requires h.revision == |h.schedule| && |s.histogram| == BUCKETS && Counts(h, s, r)
    ensures CountedAs(s, Advance(h, s, r, false, now), r, h.revision, now - h.schedule[r - 1])
  {
    SampleIs(h, r, now);
    NotedAs(s, r, Sample(h, r, now), h.revision, now - h.schedule[r - 1]);
  }

  lemma IgnoredReport(h: Hub, s: Session, r: nat, now: int)
    requires h.revision == |h.schedule| && |s.histogram| == BUCKETS && !Counts(h, s, r)
    ensures SameRecord(s, Advance(h, s, r, false, now))
  {
  }

  /** What a non-final report of session i leaves on record. */
  ghost predicate ReportNoted(w: World, i: nat, r: nat, now: int, t: Session)
    requires i < |w.sessions| && w.hub.revision == |w.hub.schedule|
  {
    if Counts(w.hub, w.sessions[i], r) then
      CountedAs(w.sessions[i], t, r, w.hub.revision, now - w.hub.schedule[r - 1])
    else SameRecord(w.sessions[i], t)
  }

  lemma ReportRead(w: World, i: nat, r: nat, now: int)
    requires w.hub.config.Checked() && Published(w.hub.log) && i < |w.sessions| && w.sessions[i].wire.readsOut > 0
    requires w.hub.revision == |w.hub.schedule| && |w.sessions[i].histogram| == BUCKETS && w.sessions[i].joined
    ensures var t := ReadCompleted(w, i, true, Progress(r, false), now);
            i < |t.sessions| && ReportNoted(w, i, r, now, t.sessions[i])
  {
    var taken := With(w, i, Receive(w.sessions[i]));
    var handled := Handle(taken, i, Progress(r, false), now);
    var s := taken.sessions[i];
    if Counts(w.hub, s, r) {
      ObservedAs(w.hub, s, r, now);
    } else {
      IgnoredReport(w.hub, s, r, now);
    }
    assert handled.hub == w.hub && handled.sessions[i] == Advance(w.hub, s, r, false, now);
    ResumeCalm(handled, i);
  }

  // ---- the join ----

  /** The first message of a session is a join, and there is room for it. */
  predicate JoinsNow(w: World, step: Step, i: nat)
    requires i < |w.sessions|
  {
    && step.ReadReturned? && step.i == i && step.ok && !w.sessions[i].joined
    && step.input == Join(true) && w.hub.joined < w.hub.config.fanout
  }

  ghost predicate JoinNoted(w: World, s: Session, t: Session) {
    && t.joined && t.joinPoint == |w.hub.log| && t.joinTable == w.hub.values
    && t.recorded == s.recorded && t.expired == s.expired && t.lastProgress == s.lastProgress
  }

  /** What the first message of session i leaves on record. */
  ghost predicate FirstNoted(w: World, i: nat, accepted: bool, t: World)
    requires i < |w.sessions|
  {
    && i < |t.sessions|
    && if accepted then JoinNoted(w, w.sessions[i], t.sessions[i]) && t.hub.joined == w.hub.joined + 1
       else SameRecord(w.sessions[i], t.sessions[i]) && t.hub.joined == w.hub.joined
  }

  lemma AdmitNotes(w: World, i: nat, input: Control)
    requires i < |w.sessions| && !w.sessions[i].joined
    ensures FirstNoted(w, i, input == Join(true) && w.hub.joined < w.hub.config.fanout, Admit(w, i, input))
    ensures Admit(w, i, input).hub.log == w.hub.log
  {
  }

  lemma FirstMessage(w: World, i: nat, input: Control, now: int)
    requires w.hub.config.Checked() && Published(w.hub.log) && i < |w.sessions| && w.sessions[i].wire.readsOut > 0
    requires w.hub.revision == |w.hub.schedule| && |w.sessions[i].histogram| == BUCKETS && !w.sessions[i].joined
    ensures FirstNoted(w, i, JoinsNow(w, ReadReturned(i, true, input, now), i), ReadCompleted(w, i, true, input, now))
  {
    var taken := With(w, i, Receive(w.sessions[i]));
    AdmitNotes(taken, i, input);
    ResumeCalm(Admit(taken, i, input), i);
  }

  // ---- every step ----

  /** What a step leaves on record of the session that was at place i. */
  ghost predicate Notes(w: World, step: Step, i: nat, t: Session)
    requires i < |w.sessions| && w.hub.revision == |w.hub.schedule|
  {
    if JoinsNow(w, step, i) then JoinNoted(w, w.sessions[i], t)
    else if step.ReadReturned? && step.i == i && step.ok && w.sessions[i].joined &&
            step.input.Progress? && !step.input.final then
      ReportNoted(w, i, step.input.revision, step.now, t)
    else SameRecord(w.sessions[i], t)
  }

  /** In every step the record of every session changes exactly so: by its own join and its own reports. */
  lemma StepNotes(w: World, step: Step, i: nat)
    requires Invariant(w) && Enabled(w, step) && i < |w.sessions| && step != Done(i)
    ensures w.hub.revision == |w.hub.schedule| && Where(step, i) < |Next(w, step).sessions|
    ensures Notes(w, step, i, Next(w, step).sessions[Where(step, i)])
  {
    StepAnswers(w, step, i);
    if !Steady(w, step, i) {
      assert Settled(w.hub, w.sessions[i]);
      if w.sessions[i].joined {
        ReportRead(w, i, step.input.revision, step.now);
      } else {
        FirstMessage(w, i, step.input, step.now);
      }
    }
  }

  /** A session that joins is up to date with the log of that moment. */
  lemma JoinedAtTheEnd(w: World, step: Step, i: nat)
    requires Invariant(w) && Enabled(w, step) && i < |w.sessions| && JoinsNow(w, step, i)
    ensures i < |Next(w, step).sessions| && Next(w, step).hub.log == w.hub.log
    ensures Next(w, step).sessions[i].cursor == |w.hub.log| + 1
    ensures Next(w, step).hub.joined == w.hub.joined + 1
  {
    StepNotes(w, step, i);
    StepKeeps(w, step);
    assert Settled(w.hub, w.sessions[i]);
    FirstMessage(w, i, step.input, step.now);
    PushLog.StepWrites(w, step);
    assert Settled(Next(w, step).hub, Next(w, step).sessions[i]);
  }

  // ---- reports in runs ----

  /** Revision r was made by step `made`. */
  ghost predicate MadeIn(config: Config, steps: seq<Step>, r: nat, made: nat) {
    && made < |steps| && Run(config, steps[..made])
    && PushLog.Makes(After(config, steps[..made]), steps[made])
    && After(config, steps[..made]).hub.revision + 1 == r
  }

  /**
   * In every run: a counted report of revision r is a sample of the time between the step that made
   * revision r (its planned time, or the time of its publication) and the report, as long as fewer than
   * 16384 revisions follow r; otherwise it is counted as expired.
   */
  lemma ReportsAreTimed(config: Config, steps: seq<Step>, at: nat, w: World, v: World) returns (made: nat)
    requires Run(config, steps) && at < |steps| && Run(config, steps[..at]) && Run(config, steps[..at + 1])
    requires w == After(config, steps[..at]) && v == After(config, steps[..at + 1])
    requires steps[at].ReadReturned? && steps[at].ok && steps[at].input.Progress? && !steps[at].input.final
    requires steps[at].i < |w.sessions| && w.sessions[steps[at].i].joined
    requires Counts(w.hub, w.sessions[steps[at].i], steps[at].input.revision)
    ensures made < at && MadeIn(config, steps, steps[at].input.revision, made)
    ensures steps[at].i < |v.sessions|
    ensures CountedAs(w.sessions[steps[at].i], v.sessions[steps[at].i], steps[at].input.revision, w.hub.revision,
                      steps[at].now - PushLog.TimeOf(steps[made]))
  {
    var ws := TrailOf(config, steps);
    PushLog.TrailEnds(config, steps, ws);
    PushLog.LinkedWrote(config, ws, steps);
    made := TimedIn(config, ws, steps, at);
  }

  lemma TimedIn(config: Config, ws: seq<World>, steps: seq<Step>, at: nat) returns (made: nat)
    requires PushLog.Wrote(config, ws, steps) && Linked(ws, steps) && at < |steps|
    requires steps[at].ReadReturned? && steps[at].ok && steps[at].input.Progress? && !steps[at].input.final
    requires steps[at].i < |ws[at].sessions| && ws[at].sessions[steps[at].i].joined
    requires Counts(ws[at].hub, ws[at].sessions[steps[at].i], steps[at].input.revision)
    ensures made < at && PushLog.MadeAt(ws, steps, steps[at].input.revision, made)
    ensures steps[at].i < |ws[at + 1].sessions|
    ensures CountedAs(ws[at].sessions[steps[at].i], ws[at + 1].sessions[steps[at].i], steps[at].input.revision,
                      ws[at].hub.revision, steps[at].now - PushLog.TimeOf(steps[made]))
  {
    made := PushLog.RevisionMade(config, ws, steps, at, steps[at].input.revision);
    assert ws[at + 1] == Next(ws[at], steps[at]);
    StepNotes(ws[at], steps[at], steps[at].i);
  }
}
