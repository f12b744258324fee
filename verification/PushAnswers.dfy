/** What one step does to a session: the replies it earns, and what it leaves alone. */
module PushAnswers {
  import opened Common
  import opened PushTypes
  import opened Reactor
  import opened SessionModel
  import opened HubModel
  import opened PushLag
  import Histogram
  import PushTheorems

  // ---- the replies of a stream ----

  /** All replies of a session: sent, queued or waiting. */
  function Answers(s: Session): seq<Event> {
    Replies(Stream(s))
  }

  /**
   * A session that is closing keeps its status; a joined one keeps its join, and its cursor does not pass an
   * event that the ring has lost.
   */
  ghost predicate Held(log: seq<Event>, s: Session, t: Session) {
    && (s.closing ==> t.closing && t.status == s.status)
    && (s.joined ==> t.joined && t.joinPoint == s.joinPoint && (Overwritten(log, s.cursor) ==> t.cursor == s.cursor))
  }

  /** What a session has on record: its join, its samples and its progress. */
  ghost predicate SameRecord(s: Session, t: Session) {
    && t.joined == s.joined && t.joinPoint == s.joinPoint && t.joinTable == s.joinTable
    && t.recorded == s.recorded && t.expired == s.expired && t.lastProgress == s.lastProgress
  }

  /** Neither the replies nor the record change. */
  ghost predicate Calm(log: seq<Event>, s: Session, t: Session) {
    Answers(t) == Answers(s) && SameRecord(s, t) && Held(log, s, t)
  }

  lemma TakeReplyCalm(log: seq<Event>, s: Session)
    requires CanTake(log, s) && s.controls != []
    ensures Calm(log, s, TakeOne(log, s))
  {
    assert s.controls == [s.controls[0]] + s.controls[1..];
    assert Stream(TakeOne(log, s)) == Stream(s);
  }

  lemma TakeBroadcastCalm(log: seq<Event>, s: Session)
    requires CanTake(log, s) && s.controls == [] && Published(log)
    ensures Calm(log, s, TakeOne(log, s))
  {
    var e := RingEvent(log, s.cursor);
    RingEventIsLive(log, s.cursor);
    OverwrittenByDistance(log, s.cursor);
    assert log[s.cursor - 1] in log;
    assert Stream(TakeOne(log, s)) == Stream(s) + [e];
    OnlyOfOne(Stream(s), e, false);
  }

  lemma {:induction false} FillCalm(log: seq<Event>, s: Session)
    requires Published(log)
    ensures Calm(log, s, Fill(log, s).0)
    decreases QUEUE - |s.queue|
  {
    if CanTake(log, s) {
      TakeOneCalm(log, s);
      FillCalm(log, TakeOne(log, s));
      CalmChain(log, s, TakeOne(log, s), Fill(log, s).0);
    }
  }

  lemma TakeOneCalm(log: seq<Event>, s: Session)
    requires CanTake(log, s) && Published(log)
    ensures Calm(log, s, TakeOne(log, s))
  {
    if s.controls != [] {
      TakeReplyCalm(log, s);
    } else {
      TakeBroadcastCalm(log, s);
    }
  }

  lemma CalmChain(log: seq<Event>, s: Session, t: Session, u: Session)
    requires Calm(log, s, t) && Calm(log, t, u)
    ensures Calm(log, s, u)
  {
  }

  lemma FailCalm(log: seq<Event>, s: Session, reason: string)
    ensures Calm(log, s, Fail(s, reason))
  {
    assert Stream(Fail(s, reason)) == Stream(s);
  }

  lemma ServeCalm(log: seq<Event>, s: Session)
    ensures Calm(log, s, Read(Launch(s)))
  {
    assert Stream(Read(Launch(s))) == Stream(s);
  }

  lemma PumpCalm(log: seq<Event>, s: Session)
    requires Published(log)
    ensures Calm(log, s, Pump(log, s))
  {
    if s.finishing {
    } else if s.closing {
      assert Stream(Settle(s)) == Stream(s);
    } else {
      FillCalm(log, s);
      FailCalm(log, Fill(log, s).0, LAGGED);
      ServeCalm(log, Fill(log, s).0);
    }
  }

  lemma MetadataCalm(log: seq<Event>, s: Session, ok: bool)
    requires Published(log)
    ensures Calm(log, s, SendMetadataDone(log, s, ok))
  {
    var t := s.(metadata := true, wire := MetadataDone(s.wire));
    assert Stream(t) == Stream(s);
    FailCalm(log, t, "response metadata failed");
    PumpCalm(log, if ok then t else Fail(t, "response metadata failed"));
  }

  lemma ReadCalm(log: seq<Event>, s: Session)
    ensures Calm(log, s, Read(s))
  {
    assert Stream(Read(s)) == Stream(s);
  }

  lemma WriteCalm(log: seq<Event>, s: Session, ok: bool)
    requires Published(log) && s.queue != [] && s.wire.writeOut == Some(s.queue[0])
    ensures Calm(log, s, WriteCompleted(log, s, ok))
  {
    var popped := Popped(s, ok);
    PopStream(s, ok);
    FailCalm(log, popped, "event write failed");
    var checked := if ok then popped else Fail(popped, "event write failed");
    var t := if s.queue[0].Completed? && ok then checked.(closing := true) else checked;
    assert Stream(t) == Stream(checked);
    PumpCalm(log, t);
    ReadCalm(log, Pump(log, t));
  }

  lemma ReceiveCalm(log: seq<Event>, s: Session)
    requires s.wire.readsOut > 0
    ensures Calm(log, s, Receive(s))
  {
    assert Stream(Receive(s)) == Stream(s);
  }

  lemma ReleaseCalm(log: seq<Event>, s: Session)
    ensures Calm(log, s, Release(s))
  {
    assert Stream(Release(s)) == Stream(s);
  }

  // ---- what one step answers ----

  /** The reply a message of a joined session earns. */
  function ReplyTo(h: Hub, s: Session, input: Control): seq<Event> {
    match input
    case Ping(n) => [Pong(n)]
    case Publish(request, data) =>
      if request == 0 || |data| > 1024 then [] else [if h.finished then Rejected(request) else Accepted(request)]
    case Progress(revision, final) =>
      if final && s.drained == Some(revision) then [Completed(Summary(s, revision))] else []
    case _ => []
  }

  function Earned(w: World, step: Step, i: nat): seq<Event>
    requires i < |w.sessions|
  {
    if step.ReadReturned? && step.i == i && step.ok && w.sessions[i].joined then
      ReplyTo(w.hub, w.sessions[i], step.input)
    else []
  }

  /** The step brings no message of session i that may change its record. */
  predicate Steady(w: World, step: Step, i: nat)
    requires i < |w.sessions|
  {
    !(step.ReadReturned? && step.i == i && step.ok && ForTheRecord(w.sessions[i], step.input))
  }

  /** The replies grow by the given ones; when the message does not concern the record, that stays. */
  ghost predicate Answered(log: seq<Event>, s: Session, t: Session, replies: seq<Event>, steady: bool) {
    Answers(t) == Answers(s) + replies && Held(log, s, t) && (steady ==> SameRecord(s, t))
  }

  /** A message that may change the record: the first one, or a progress report that is not final. */
  predicate ForTheRecord(s: Session, input: Control) {
    !s.joined || (input.Progress? && !input.final)
  }

  lemma ReplyAnswered(log: seq<Event>, s: Session, e: Event)
    requires !e.Broadcast?()
    ensures Answered(log, s, Reply(s, e), [e], true)
  {
    assert Stream(Reply(s, e)) == Stream(s) + [e];
    OnlyOfOne(Stream(s), e, false);
  }

  lemma NoteAnswered(log: seq<Event>, s: Session, revision: nat, bucket: Option<nat>)
    requires bucket.Some? ==> bucket.value < |s.histogram|
    ensures Answered(log, s, Note(s, revision, bucket), [], false)
  {
    assert Stream(Note(s, revision, bucket)) == Stream(s);
  }

  lemma AdvanceAnswered(h: Hub, s: Session, revision: nat, final: bool, now: int)
    requires h.revision == |h.schedule| && |s.histogram| == BUCKETS
    ensures Answered(h.log, s, Advance(h, s, revision, final, now), ReplyTo(h, s, Progress(revision, final)), final)
  {
    if final && s.drained != Some(revision) {
      FailCalm(h.log, s, "invalid final progress");
    } else if final {
      ReplyAnswered(h.log, s, Completed(Summary(s, revision)));
    } else if revision <= s.lastProgress || revision > h.revision {
      FailCalm(h.log, s, "invalid progress revision");
    } else {
      NoteAnswered(h.log, s, revision, Sample(h, revision, now));
    }
  }

  lemma ForwardAnswered(w: World, i: nat, request: nat, data: Bytes, now: int, j: nat)
    requires HubInv(w.hub) && i < |w.sessions| && j < |w.sessions|
    ensures var t := Forward(w, i, request, data, now);
            && j < |t.sessions|
            && Answered(t.hub.log, w.sessions[j], t.sessions[j],
                        if j == i then ReplyTo(w.hub, w.sessions[i], Control.Publish(request, data)) else [], true)
  {
    if request == 0 || |data| > 1024 {
      FailCalm(w.hub.log, w.sessions[i], "invalid publish");
    } else {
      var applied := Apply(w, Catalog, data, now);
      ApplyCalm(w, data, now, j);
      var e := if w.hub.finished then Rejected(request) else Accepted(request);
      ReplyAnswered(applied.hub.log, applied.sessions[j], e);
    }
  }

  lemma ApplyCalm(w: World, data: Bytes, now: int, j: nat)
    requires HubInv(w.hub) && j < |w.sessions|
    ensures var t := Apply(w, Catalog, data, now);
            |t.sessions| == |w.sessions| && Calm(t.hub.log, w.sessions[j], t.sessions[j])
  {
    if !w.hub.finished {
      UpdateHub(w.hub, Catalog, data, now);
      PumpCalm(w.hub.log + [UpdateEvent(w.hub, Catalog, data)], w.sessions[j]);
    }
  }

  /** The message of session i, seen by session j. */
  lemma HandleAnswered(w: World, i: nat, input: Control, now: int, j: nat)
    requires HubInv(w.hub) && i < |w.sessions| && j < |w.sessions| && |w.sessions[i].histogram| == BUCKETS
    ensures var t := Handle(w, i, input, now);
            var replies := if j == i && w.sessions[i].joined then ReplyTo(w.hub, w.sessions[i], input) else [];
            && j < |t.sessions|
            && Answered(t.hub.log, w.sessions[j], t.sessions[j], replies, j != i || !ForTheRecord(w.sessions[i], input))
  {
    if w.sessions[i].joined && input.Publish? {
      ForwardAnswered(w, i, input.request, input.data, now, j);
    } else if j != i {
      OthersAreSame(w, i, input, now, j);
    } else {
      OwnAnswered(w, i, input, now);
    }
  }

  lemma OthersAreSame(w: World, i: nat, input: Control, now: int, j: nat)
    requires w.hub.config.Checked() && i < |w.sessions| && j < |w.sessions| && j != i
    requires w.hub.revision == |w.hub.schedule| && |w.sessions[i].histogram| == BUCKETS
    requires !(w.sessions[i].joined && input.Publish?)
    ensures var t := Handle(w, i, input, now);
            j < |t.sessions| && t.sessions[j] == w.sessions[j]
  {
  }

  lemma OwnAnswered(w: World, i: nat, input: Control, now: int)
    requires w.hub.config.Checked() && i < |w.sessions|
    requires w.hub.revision == |w.hub.schedule| && |w.sessions[i].histogram| == BUCKETS
    requires !(w.sessions[i].joined && input.Publish?)
    ensures var t := Handle(w, i, input, now);
            var replies := if w.sessions[i].joined then ReplyTo(w.hub, w.sessions[i], input) else [];
            && i < |t.sessions| && t.hub.log == w.hub.log
            && Answered(t.hub.log, w.sessions[i], t.sessions[i], replies, !ForTheRecord(w.sessions[i], input))
  {
    var s := w.sessions[i];
    if !s.joined {
      AdmitAnswered(w, i, input);
    } else if input.Progress? {
      AdvanceAnswered(w.hub, s, input.revision, input.final, now);
    } else if input.Ping? {
      ReplyAnswered(w.hub.log, s, Pong(input.ping));
    } else {
      FailCalm(w.hub.log, s, "invalid control");
    }
  }

  lemma AdmitAnswered(w: World, i: nat, input: Control)
    requires i < |w.sessions| && !w.sessions[i].joined
    ensures Answered(w.hub.log, w.sessions[i], Admit(w, i, input).sessions[i], [], false)
  {
    FailCalm(w.hub.log, w.sessions[i], "join required or recipient limit");
    assert Stream(Admit(w, i, input).sessions[i]) == Stream(w.sessions[i]);
  }

  lemma ReadAnswered(w: World, step: Step, j: nat)
    requires Invariant(w) && Enabled(w, step) && step.ReadReturned? && j < |w.sessions|
    ensures j < |Next(w, step).sessions|
    ensures Answered(Next(w, step).hub.log, w.sessions[j], Next(w, step).sessions[j],
                     Earned(w, step, j), Steady(w, step, j))
  {
    var k := step.i;
    assert Settled(w.hub, w.sessions[k]);
    if step.ok {
      ReceivedAnswered(w, k, step.input, step.now, j);
    } else {
      HangUpCalm(w.hub.log, w.sessions[k]);
    }
  }

  lemma HangUpCalm(log: seq<Event>, s: Session)
    requires s.wire.readsOut > 0
    ensures Calm(log, s, Fail(s.(reading := false, wire := ReadDone(s.wire)), "control stream closed"))
  {
    var t := s.(reading := false, wire := ReadDone(s.wire));
    assert Stream(t) == Stream(s);
    FailCalm(log, t, "control stream closed");
  }

  lemma ReceivedAnswered(w: World, k: nat, input: Control, now: int, j: nat)
    requires Invariant(w) && k < |w.sessions| && j < |w.sessions|
    requires w.sessions[k].wire.readsOut > 0 && |w.sessions[k].histogram| == BUCKETS
    ensures var t := ReadCompleted(w, k, true, input, now);
            var replies := if j == k && w.sessions[k].joined then ReplyTo(w.hub, w.sessions[k], input) else [];
            && j < |t.sessions|
            && Answered(t.hub.log, w.sessions[j], t.sessions[j], replies, j != k || !ForTheRecord(w.sessions[k], input))
  {
    var taken := With(w, k, Receive(w.sessions[k]));
    ReceiveCalm(Handle(taken, k, input, now).hub.log, w.sessions[k]);
    HandleAnswered(taken, k, input, now, j);
    TakeOver(w, k);
    HandleKeeps(taken, k, input, now);
    if j == k {
      ResumeCalm(Handle(taken, k, input, now), k);
      SameReply(w.hub, w.sessions[k], input);
    }
  }

  /** Taking the message over does not change what it earns. */
  lemma SameReply(h: Hub, s: Session, input: Control)
    requires s.wire.readsOut > 0
    ensures ReplyTo(h, Receive(s), input) == ReplyTo(h, s, input)
  {
  }

  lemma ResumeCalm(w: World, k: nat)
    requires k < |w.sessions| && Published(w.hub.log)
    ensures Calm(w.hub.log, w.sessions[k], Pump(w.hub.log, Read(Release(w.sessions[k]))))
  {
    ReleaseCalm(w.hub.log, w.sessions[k]);
    ReadCalm(w.hub.log, Release(w.sessions[k]));
    PumpCalm(w.hub.log, Read(Release(w.sessions[k])));
  }

  ghost predicate StepAnswered(w: World, step: Step, i: nat)
    requires Invariant(w) && Enabled(w, step) && i < |w.sessions|
  {
    && Where(step, i) < |Next(w, step).sessions|
    && Answered(Next(w, step).hub.log, w.sessions[i], Next(w, step).sessions[Where(step, i)],
                Earned(w, step, i), Steady(w, step, i))
  }

  lemma OneCalm(w: World, k: nat, t: Session, i: nat)
    requires k < |w.sessions| && i < |w.sessions| && Calm(w.hub.log, w.sessions[k], t)
    ensures Answered(w.hub.log, w.sessions[i], With(w, k, t).sessions[i], [], true)
  {
  }

  lemma WriteStepAnswers(w: World, k: nat, ok: bool, i: nat)
    requires Invariant(w) && Enabled(w, WriteReturned(k, ok)) && i < |w.sessions|
    ensures StepAnswered(w, WriteReturned(k, ok), i)
  {
    assert Settled(w.hub, w.sessions[k]);
    WriteCalm(w.hub.log, w.sessions[k], ok);
    OneCalm(w, k, WriteCompleted(w.hub.log, w.sessions[k], ok), i);
  }

  lemma MetadataStepAnswers(w: World, k: nat, ok: bool, i: nat)
    requires Invariant(w) && Enabled(w, MetadataSent(k, ok)) && i < |w.sessions|
    ensures StepAnswered(w, MetadataSent(k, ok), i)
  {
    MetadataCalm(w.hub.log, w.sessions[k], ok);
    OneCalm(w, k, SendMetadataDone(w.hub.log, w.sessions[k], ok), i);
  }

  lemma EndStepAnswers(w: World, step: Step, i: nat)
    requires Invariant(w) && Enabled(w, step) && (step.Cancelled? || step.Shutdown?) && i < |w.sessions|
    ensures StepAnswered(w, step, i)
  {
    if step.Cancelled? {
      FailCalm(w.hub.log, w.sessions[step.i], "session cancelled");
      OneCalm(w, step.i, Fail(w.sessions[step.i], "session cancelled"), i);
    } else {
      FailCalm(w.hub.log, w.sessions[i], "server stopping");
    }
  }

  lemma ProducerStepAnswers(w: World, step: Step, i: nat)
    requires Invariant(w) && Enabled(w, step) && (step.Begin? || step.Produce? || step.Piece? || step.Drain?)
    requires i < |w.sessions|
    ensures StepAnswered(w, step, i)
  {
    StepKeeps(w, step);
    PumpCalm(Next(w, step).hub.log, w.sessions[i]);
  }

  lemma DoneStepAnswers(w: World, k: nat, i: nat)
    requires Invariant(w) && Enabled(w, Done(k)) && i < |w.sessions| && i != k
    ensures StepAnswered(w, Done(k), i)
  {
    RemovedShifts(w.sessions, k, i);
  }

  lemma RestStepAnswers(w: World, step: Step, i: nat)
    requires Invariant(w) && Enabled(w, step) && (step.Connect? || step.GiveUp?) && i < |w.sessions|
    ensures StepAnswered(w, step, i)
  {
  }

  /** In every step every session gets exactly the replies that its own message earns. */
  lemma StepAnswers(w: World, step: Step, i: nat)
    requires Invariant(w) && Enabled(w, step) && i < |w.sessions| && step != Done(i)
    ensures StepAnswered(w, step, i)
  {
    match step
    case ReadReturned(_, _, _, _) => ReadAnswered(w, step, i);
    case MetadataSent(k, ok) => MetadataStepAnswers(w, k, ok, i);
    case WriteReturned(k, ok) => WriteStepAnswers(w, k, ok, i);
    case Cancelled(k) => EndStepAnswers(w, step, i);
    case Shutdown => EndStepAnswers(w, step, i);
    case Done(k) => DoneStepAnswers(w, k, i);
    case Connect => RestStepAnswers(w, step, i);
    case GiveUp => RestStepAnswers(w, step, i);
    case _ => ProducerStepAnswers(w, step, i);
  }

  // ---- sessions and hub across one step ----

  /** No session comes or goes, and the log only grows. */
  ghost predicate Grown(w: World, t: World) {
    |t.sessions| == |w.sessions| && w.hub.log <= t.hub.log && w.hub.revision <= t.hub.revision
  }

  lemma HandleGrows(w: World, i: nat, input: Control, now: int)
    requires w.hub.config.Checked() && i < |w.sessions|
    requires w.hub.revision == |w.hub.schedule| && |w.sessions[i].histogram| == BUCKETS
    ensures Grown(w, Handle(w, i, input, now))
  {
  }

  lemma ReadGrows(w: World, i: nat, ok: bool, input: Control, now: int)
    requires w.hub.config.Checked() && i < |w.sessions| && w.sessions[i].wire.readsOut > 0
    requires w.hub.revision == |w.hub.schedule| && |w.sessions[i].histogram| == BUCKETS
    ensures Grown(w, ReadCompleted(w, i, ok, input, now))
  {
    HandleGrows(With(w, i, Receive(w.sessions[i])), i, input, now);
  }

  lemma StepGrows(w: World, step: Step)
    requires Invariant(w) && Enabled(w, step) && !step.Connect? && !step.Done?
    ensures Grown(w, Next(w, step))
  {
    if step.ReadReturned? {
      assert Settled(w.hub, w.sessions[step.i]);
      ReadGrows(w, step.i, step.ok, step.input, step.now);
    }
  }

  lemma SessionCount(w: World, step: Step)
    requires Invariant(w) && Enabled(w, step)
    ensures |Next(w, step).sessions| == |w.sessions| + (if step.Connect? then 1 else if step.Done? then -1 else 0)
    ensures step.Connect? ==> Next(w, step).sessions[|w.sessions|] == Open()
  {
    if !step.Connect? && !step.Done? {
      StepGrows(w, step);
    }
  }

  /** Which session a place belonged to before the step; a new session had none. */
  lemma Origin(w: World, step: Step, j: nat) returns (i: nat)
    requires Invariant(w) && Enabled(w, step) && j < |Next(w, step).sessions|
    requires !(step.Connect? && j == |w.sessions|)
    ensures i < |w.sessions| && step != Done(i) && Where(step, i) == j
  {
    SessionCount(w, step);
    i := if step.Done? && step.i <= j then j + 1 else j;
  }

  lemma HubGrows(w: World, step: Step)
    requires Invariant(w) && Enabled(w, step)
    ensures w.hub.log <= Next(w, step).hub.log && w.hub.revision <= Next(w, step).hub.revision
  {
    if !step.Connect? && !step.Done? {
      StepGrows(w, step);
    }
  }

  lemma PublishedRead(w: World, k: nat, input: Control, now: int)
    requires w.hub.config.Checked() && k < |w.sessions| && w.sessions[k].wire.readsOut > 0
    requires w.hub.revision == |w.hub.schedule| && |w.sessions[k].histogram| == BUCKETS
    requires w.sessions[k].joined && input.Publish? && input.request != 0 && |input.data| <= 1024
    ensures var h := ReadCompleted(w, k, true, input, now).hub;
            && (w.hub.finished ==> h == w.hub)
            && (!w.hub.finished ==>
                  && h.log == w.hub.log + [UpdateEvent(w.hub, Catalog, input.data)]
                  && h.revision == w.hub.revision + 1)
  {
    var taken := With(w, k, Receive(w.sessions[k]));
    PushTheorems.ForwardMeaning(taken, k, input.request, input.data, now);
  }

  /** The hub through a publication: one more update exactly when it is accepted, else no change at all. */
  lemma PublishedHub(w: World, step: Step)
    requires Invariant(w) && Enabled(w, step) && step.ReadReturned? && step.ok && step.input.Publish?
    requires w.sessions[step.i].joined && step.input.request != 0 && |step.input.data| <= 1024
    ensures var h := Next(w, step).hub;
            && (w.hub.finished ==> h == w.hub)
            && (!w.hub.finished ==>
                  && h.log == w.hub.log + [UpdateEvent(w.hub, Catalog, step.input.data)]
                  && h.revision == w.hub.revision + 1)
  {
    assert Settled(w.hub, w.sessions[step.i]);
    PublishedRead(w, step.i, step.input, step.now);
  }

  // ---- at most one reply per step ----

  lemma EarnedIsShort(w: World, step: Step, i: nat)
    requires i < |w.sessions|
    ensures |Earned(w, step, i)| <= 1
    ensures Earned(w, step, i) != [] ==> Earned(w, step, i) == [Earned(w, step, i)[0]]
  {
  }

  lemma NewHasNone()
    ensures Answers(Open()) == []
  {
    assert Stream(Open()) == [];
  }

  // ---- the numbers of a report ----

  ghost predicate PercentileOf(recorded: seq<nat>, p: nat, value: nat) {
    if recorded == [] then value == 0 else PushTheorems.NearestRank(recorded, p, value)
  }

  /** The report tells the number of samples and of expired reports, and the percentiles of these samples. */
  ghost predicate Stated(recorded: seq<nat>, expired: nat, r: Report) {
    && r.sampled == |recorded| && r.expired == expired
    && PercentileOf(recorded, 50, r.p50) && PercentileOf(recorded, 95, r.p95) && PercentileOf(recorded, 99, r.p99)
    && r.p50 <= r.p95 <= r.p99
  }

  lemma PercentileIsOf(s: Session, p: nat)
    requires Measured(s) && 1 <= p <= 100
    ensures PercentileOf(s.recorded, p, Histogram.Percentile(s.histogram, s.samples, p))
  {
    if s.recorded != [] {
      PushTheorems.RankedBucket(s.histogram, s.recorded, p);
    }
  }

  lemma SummaryIsStated(s: Session, revision: nat)
    requires Measured(s)
    ensures Stated(s.recorded, s.expired, Summary(s, revision))
  {
    PercentileIsOf(s, 50);
    PercentileIsOf(s, 95);
    PercentileIsOf(s, 99);
    Histogram.PercentileMonotone(s.histogram, s.recorded, 50, 95);
    Histogram.PercentileMonotone(s.histogram, s.recorded, 95, 99);
  }
}
