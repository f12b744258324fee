/** When a session is ended for lag: the one step that can do it, and that it does happen. */
module PushLag {
  import opened Common
  import opened PushTypes
  import opened Reactor
  import opened SessionModel
  import opened HubModel
  import PushTheorems

  /** A session that no publication made now could find lagging. */
  ghost predicate Ahead(log: seq<Event>, s: Session) {
    |s.queue| <= QUEUE && Fed(log, s) && s.status != Exhausted(LAGGED)
  }

  /** Pumping on the same log or on one event more never fails such a session for lag. */
  lemma PumpAhead(log: seq<Event>, log': seq<Event>, s: Session)
    requires Ahead(log, s) && |log'| <= |log| + 1
    ensures Pump(log', s).status != Exhausted(LAGGED)
  {
    FillLagsByDistance(log', s);
    FillFrame(log', s);
  }

  lemma PumpStaysAhead(log: seq<Event>, log': seq<Event>, s: Session)
    requires Ahead(log, s) && |log'| <= |log| + 1 && Core(log', s) && Published(log')
    ensures Ahead(log', Pump(log', s))
  {
    PumpAhead(log, log', s);
    PumpKeeps(log', s);
  }

  lemma FailAhead(log: seq<Event>, s: Session, reason: string)
    requires Ahead(log, s) && reason != LAGGED
    ensures Ahead(log, Fail(s, reason))
  {
  }

  /** No message of any session ends a session for lag, with or without a publication on the way. */
  lemma HandleAhead(w: World, i: nat, input: Control, now: int, j: nat)
    requires Inside(w, i) && j < |w.sessions| && Ahead(w.hub.log, w.sessions[j])
    ensures var t := Handle(w, i, input, now);
            j < |t.sessions| && Ahead(t.hub.log, t.sessions[j])
  {
    var s := w.sessions[i];
    if s.joined && input.Publish? {
      ForwardAhead(w, i, input.request, input.data, now, j);
    } else {
      HandleOwnAhead(w, i, input, now, j);
    }
  }

  lemma ForwardAhead(w: World, i: nat, request: nat, data: Bytes, now: int, j: nat)
    requires Inside(w, i) && j < |w.sessions| && Ahead(w.hub.log, w.sessions[j])
    ensures var t := Forward(w, i, request, data, now);
            j < |t.sessions| && Ahead(t.hub.log, t.sessions[j])
  {
    if request == 0 || |data| > 1024 {
      Reasons();
    } else if !w.hub.finished {
      var e := UpdateEvent(w.hub, Catalog, data);
      UpdateHub(w.hub, Catalog, data, now);
      assert InStep(w.hub, w.sessions[j]);
      PublishKeeps(w.hub.log, e, w.sessions[j]);
      PumpStaysAhead(w.hub.log, w.hub.log + [e], w.sessions[j]);
    }
  }

  lemma HandleOwnAhead(w: World, i: nat, input: Control, now: int, j: nat)
    requires w.hub.config.Checked() && i < |w.sessions| && j < |w.sessions| && Ahead(w.hub.log, w.sessions[j])
    requires w.hub.revision == |w.hub.schedule| && |w.sessions[i].histogram| == BUCKETS
    requires !(w.sessions[i].joined && input.Publish?)
    ensures var t := Handle(w, i, input, now);
            j < |t.sessions| && Ahead(t.hub.log, t.sessions[j])
  {
    Reasons();
    var s := w.sessions[i];
    if i != j {
    } else if !s.joined {
      FailAhead(w.hub.log, s, "join required or recipient limit");
    } else if input.Progress? {
      AdvanceAhead(w.hub, s, input.revision, input.final, now);
    } else if !input.Ping? {
      FailAhead(w.hub.log, s, "invalid control");
    }
  }

  lemma ReplyAhead(log: seq<Event>, s: Session, e: Event)
    requires Ahead(log, s)
    ensures Ahead(log, Reply(s, e))
  {
  }

  lemma NoteAhead(log: seq<Event>, s: Session, revision: nat, bucket: Option<nat>)
    requires Ahead(log, s) && (bucket.Some? ==> bucket.value < |s.histogram|)
    ensures Ahead(log, Note(s, revision, bucket))
  {
  }

  lemma AdvanceAhead(h: Hub, s: Session, revision: nat, final: bool, now: int)
    requires h.revision == |h.schedule| && |s.histogram| == BUCKETS && Ahead(h.log, s)
    ensures Ahead(h.log, Advance(h, s, revision, final, now))
  {
    Reasons();
    if final && s.drained != Some(revision) {
      FailAhead(h.log, s, "invalid final progress");
    } else if final {
      ReplyAhead(h.log, s, Completed(Summary(s, revision)));
    } else if revision <= s.lastProgress || revision > h.revision {
      FailAhead(h.log, s, "invalid progress revision");
    } else {
      NoteAhead(h.log, s, revision, Sample(h, revision, now));
    }
  }

  /** The lag message is told from every other reason a session is ended for. */
  lemma Reasons()
    ensures LAGGED != "join required or recipient limit" && LAGGED != "invalid publish"
    ensures LAGGED != "invalid final progress" && LAGGED != "invalid progress revision" && LAGGED != "invalid control"
    ensures LAGGED != "control stream closed" && LAGGED != "response metadata failed"
    ensures LAGGED != "event write failed" && LAGGED != "session cancelled" && LAGGED != "server stopping"
  {
    assert LAGGED[0] == 'r' && LAGGED[2] == 'c';
    assert "response metadata failed"[2] == 's';
  }

  /** The exact condition under which a completed write finds its session too far behind. */
  ghost predicate FallsBehind(log: seq<Event>, s: Session) {
    && s.queue != [] && !s.queue[0].Completed?
    && s.joined && |s.queue| - 1 + |s.controls| < QUEUE && Overwritten(log, s.cursor)
  }

  lemma WriteLags(log: seq<Event>, s: Session, ok: bool)
    requires Core(log, s) && s.writing && !s.closing
    ensures WriteCompleted(log, s, ok).status == Exhausted(LAGGED) <==> ok && FallsBehind(log, s)
  {
    Reasons();
    if ok {
      DeliveredLags(log, s);
    }
  }

  lemma DeliveredLags(log: seq<Event>, s: Session)
    requires Core(log, s) && s.writing && !s.closing
    ensures WriteCompleted(log, s, true).status == Exhausted(LAGGED) <==> FallsBehind(log, s)
  {
    var popped := Popped(s, true);
    FillLags(log, popped);
    FillFrame(log, popped);
  }

  /** Where session i is after a step; one that leaves makes the later ones move up. */
  function Where(step: Step, i: nat): nat {
    if step.Done? && step.i < i then i - 1 else i
  }

  /** The step ends session i for lag exactly when the session falls behind at that very write. */
  ghost predicate LagsExactly(w: World, step: Step, i: nat)
    requires Invariant(w) && Enabled(w, step) && i < |w.sessions|
  {
    && Where(step, i) < |Next(w, step).sessions|
    && (Next(w, step).sessions[Where(step, i)].status == Exhausted(LAGGED) <==>
        step == WriteReturned(i, true) && FallsBehind(w.hub.log, w.sessions[i]))
  }

  /**
   * For every reachable state, every step and every session that is open before it: the step ends the
   * session for lag if and only if it is the successful completion of a write, other than Completed,
   * of that session, which leaves room for a broadcast that the ring has already lost.
   */
  lemma LagIsExact(config: Config, steps: seq<Step>, step: Step, i: nat)
    requires PushTheorems.Run(config, steps) && Enabled(PushTheorems.After(config, steps), step)
    requires i < |PushTheorems.After(config, steps).sessions| && !PushTheorems.After(config, steps).sessions[i].closing
    ensures Invariant(PushTheorems.After(config, steps)) && LagsExactly(PushTheorems.After(config, steps), step, i)
  {
    PushTheorems.RunIsSound(config, steps);
    StepLags(PushTheorems.After(config, steps), step, i);
  }

  lemma StepLags(w: World, step: Step, i: nat)
    requires Invariant(w) && Enabled(w, step) && i < |w.sessions| && !w.sessions[i].closing
    ensures LagsExactly(w, step, i)
  {
    match step
    case MetadataSent(k, ok) => MetadataStepLags(w, k, ok, i);
    case WriteReturned(k, ok) => WriteStepLags(w, k, ok, i);
    case ReadReturned(k, ok, input, now) => ReadStepLags(w, step, i);
    case Cancelled(k) => EndStepLags(w, step, i);
    case Shutdown => EndStepLags(w, step, i);
    case Done(k) => DoneStepLags(w, k, i);
    case Connect => assert Settled(w.hub, w.sessions[i]);
    case GiveUp => assert Settled(w.hub, w.sessions[i]);
    case _ => ProducerStepLags(w, step, i);
  }

  lemma MetadataStepLags(w: World, k: nat, ok: bool, i: nat)
    requires Invariant(w) && Enabled(w, MetadataSent(k, ok)) && i < |w.sessions| && !w.sessions[i].closing
    ensures LagsExactly(w, MetadataSent(k, ok), i)
  {
    assert Settled(w.hub, w.sessions[i]);
    if k == i {
      MetadataAhead(w.hub.log, w.sessions[i], ok);
    }
  }

  lemma ReadStepLags(w: World, step: Step, i: nat)
    requires Invariant(w) && Enabled(w, step) && step.ReadReturned? && i < |w.sessions| && !w.sessions[i].closing
    ensures LagsExactly(w, step, i)
  {
    assert Settled(w.hub, w.sessions[i]) && Settled(w.hub, w.sessions[step.i]);
    ReadAhead(w, step.i, step.ok, step.input, step.now, i);
  }

  lemma EndStepLags(w: World, step: Step, i: nat)
    requires Invariant(w) && Enabled(w, step) && (step.Cancelled? || step.Shutdown?)
    requires i < |w.sessions| && !w.sessions[i].closing
    ensures LagsExactly(w, step, i)
  {
    Reasons();
    assert Settled(w.hub, w.sessions[i]);
    FailAhead(w.hub.log, w.sessions[i], "session cancelled");
    FailAhead(w.hub.log, w.sessions[i], "server stopping");
  }

  lemma DoneStepLags(w: World, k: nat, i: nat)
    requires Invariant(w) && Enabled(w, Done(k)) && i < |w.sessions| && !w.sessions[i].closing
    ensures LagsExactly(w, Done(k), i)
  {
    FinishedIsClosing(w.hub, w.sessions[k]);
    RemovedShifts(w.sessions, k, i);
    assert Settled(w.hub, w.sessions[i]);
  }

  lemma FinishedIsClosing(h: Hub, s: Session)
    requires Settled(h, s) && s.wire.finishes > 0
    ensures s.closing
  {
  }

  lemma RemovedShifts(ss: seq<Session>, k: nat, i: nat)
    requires k < |ss| && i < |ss| && i != k
    ensures Where(Done(k), i) < |ss[..k] + ss[k + 1..]|
    ensures (ss[..k] + ss[k + 1..])[Where(Done(k), i)] == ss[i]
  {
  }

  lemma ProducerStepLags(w: World, step: Step, i: nat)
    requires Invariant(w) && Enabled(w, step) && (step.Begin? || step.Produce? || step.Piece? || step.Drain?)
    requires i < |w.sessions| && !w.sessions[i].closing
    ensures LagsExactly(w, step, i)
  {
    assert Settled(w.hub, w.sessions[i]);
    ProducerAhead(w, step, i);
  }

  lemma WriteStepLags(w: World, k: nat, ok: bool, i: nat)
    requires Invariant(w) && Enabled(w, WriteReturned(k, ok)) && i < |w.sessions| && !w.sessions[i].closing
    ensures LagsExactly(w, WriteReturned(k, ok), i)
  {
    assert Settled(w.hub, w.sessions[i]) && Settled(w.hub, w.sessions[k]);
    if k == i {
      WriteLags(w.hub.log, w.sessions[i], ok);
    }
  }

  lemma MetadataAhead(log: seq<Event>, s: Session, ok: bool)
    requires Ahead(log, s) && !s.closing
    ensures SendMetadataDone(log, s, ok).status != Exhausted(LAGGED)
  {
    Reasons();
    var t := s.(metadata := true, wire := MetadataDone(s.wire));
    PumpAhead(log, log, if ok then t else Fail(t, "response metadata failed"));
  }

  lemma ProducerAhead(w: World, step: Step, i: nat)
    requires Invariant(w) && Enabled(w, step) && i < |w.sessions| && Ahead(w.hub.log, w.sessions[i])
    requires step.Begin? || step.Produce? || step.Piece? || step.Drain?
    ensures i < |Next(w, step).sessions| && Next(w, step).sessions[i].status != Exhausted(LAGGED)
  {
    PumpAhead(w.hub.log, Next(w, step).hub.log, w.sessions[i]);
  }

  lemma ReadAhead(w: World, k: nat, ok: bool, input: Control, now: int, i: nat)
    requires Invariant(w) && k < |w.sessions| && w.sessions[k].wire.readsOut > 0
    requires i < |w.sessions| && Ahead(w.hub.log, w.sessions[i]) && |w.sessions[k].histogram| == BUCKETS
    ensures var t := ReadCompleted(w, k, ok, input, now);
            i < |t.sessions| && t.sessions[i].status != Exhausted(LAGGED)
  {
    if !ok {
      HangUpAhead(w, k, i);
    } else {
      TakeOver(w, k);
      ReceivedAhead(With(w, k, Receive(w.sessions[k])), k, input, now, i);
    }
  }

  lemma ReceivedAhead(w: World, k: nat, input: Control, now: int, i: nat)
    requires Inside(w, k) && i < |w.sessions| && Ahead(w.hub.log, w.sessions[i])
    ensures var t := Handle(w, k, input, now);
            && k < |t.sessions| && i < |t.sessions|
            && With(t, k, Pump(t.hub.log, Read(Release(t.sessions[k])))).sessions[i].status != Exhausted(LAGGED)
  {
    HandleAhead(w, k, input, now, i);
    HandleKeeps(w, k, input, now);
    ResumeAhead(Handle(w, k, input, now), k, i);
  }

  lemma HangUpAhead(w: World, k: nat, i: nat)
    requires k < |w.sessions| && w.sessions[k].wire.readsOut > 0
    requires i < |w.sessions| && Ahead(w.hub.log, w.sessions[i])
    ensures var s := w.sessions[k];
            var t := Fail(s.(reading := false, wire := ReadDone(s.wire)), "control stream closed");
            With(w, k, t).sessions[i].status != Exhausted(LAGGED)
  {
    Reasons();
  }

  lemma ResumeAhead(w: World, k: nat, i: nat)
    requires k < |w.sessions| && i < |w.sessions| && Ahead(w.hub.log, w.sessions[i])
    ensures With(w, k, Pump(w.hub.log, Read(Release(w.sessions[k])))).sessions[i].status != Exhausted(LAGGED)
  {
    if k == i {
      PumpAhead(w.hub.log, w.hub.log, Read(Release(w.sessions[i])));
    }
  }

  // ---- a run in which it happens ----

  lemma OneMore(w: World, steps: seq<Step>, step: Step)
    requires Invariant(w) && Executable(w, steps) && Enabled(Execute(w, steps), step)
    ensures Executable(w, steps + [step]) && Execute(w, steps + [step]) == Next(Execute(w, steps), step)
  {
    assert (steps + [step])[..|steps|] == steps;
  }

  lemma RunOneMore(config: Config, steps: seq<Step>, step: Step)
    requires PushTheorems.Run(config, steps) && Enabled(PushTheorems.After(config, steps), step)
    ensures PushTheorems.Run(config, steps + [step]) && Invariant(PushTheorems.After(config, steps))
    ensures PushTheorems.After(config, steps + [step]) == Next(PushTheorems.After(config, steps), step)
  {
    StartIsSound(config);
    OneMore(Start(config), steps, step);
  }

  /** The only session has joined at the start and its first write has not come back. */
  ghost predicate Stuck(s: Session) {
    && !s.closing && s.joined && s.joinPoint == 0 && s.writing && s.reading
    && s.controls == [] && s.wire.written == []
  }

  ghost predicate Stalled(w: World) {
    |w.sessions| == 1 && Stuck(w.sessions[0]) && w.hub.phase == Running
  }

  lemma StuckThroughEvent(log: seq<Event>, e: Event, s: Session)
    requires Core(log, s) && Fed(log, s) && Stuck(s) && (log == [] || !Last(log).Drained?)
    ensures Stuck(Pump(log + [e], s))
  {
    PublishKeeps(log, e, s);
    PumpFailsExactlyOnLag(log + [e], s);
    OverwrittenByDistance(log + [e], s.cursor);
    FillFrame(log + [e], s);
    FillControls(log + [e], s);
  }

  lemma PieceStalls(w: World)
    requires Invariant(w) && Stalled(w)
    ensures Enabled(w, Piece([])) && Stalled(Next(w, Piece([])))
    ensures |Next(w, Piece([])).hub.log| == |w.hub.log| + 1
  {
    assert Settled(w.hub, w.sessions[0]);
    StuckThroughEvent(w.hub.log, Snapshot([]), w.sessions[0]);
  }

  /** A stream whose metadata has been sent and which has joined before anything was published. */
  ghost predicate Joined(s: Session) {
    && !s.closing && !s.finishing && s.joined && s.joinPoint == 0 && s.cursor == 1
    && s.metadata && !s.writing && s.reading && !s.processing
    && s.queue == [] && s.controls == [] && s.wire.written == []
  }

  lemma ReadyStarts(s: Session)
    requires Joined(s)
    ensures Stuck(Pump([Ready], s))
  {
    var t := TakeOne([Ready], s);
    assert CanTake([Ready], s) && !CanTake([Ready], t) && !Lags([Ready], t);
    assert Fill([Ready], s) == (t, false);
  }

  lemma JoinStarts(s: Session)
    requires s == SendMetadataDone([], Open(), true)
    ensures s.reading && s.wire.readsOut == 1 && !s.joined && !s.closing && |s.histogram| == BUCKETS
    ensures forall table :: Joined(Pump([], Read(Release(
              Receive(s).(joined := true, cursor := 1, joinPoint := 0, joinTable := table)))))
  {
  }

  lemma JoinRead(w: World)
    requires w.hub.config.Checked() && w.hub.config.fanout == 1 && w.hub.joined == 0 && w.hub.log == []
    requires w.hub.revision == |w.hub.schedule| && w.sessions == [SendMetadataDone([], Open(), true)]
    ensures w.sessions[0].wire.readsOut > 0 && |w.sessions[0].histogram| == BUCKETS
    ensures var t := ReadCompleted(w, 0, true, Join(true), 0);
            |t.sessions| == 1 && Joined(t.sessions[0]) && t.hub == w.hub.(joined := 1)
  {
    var s := w.sessions[0];
    JoinStarts(s);
    var taken := With(w, 0, Receive(s));
    var joined := Receive(s).(joined := true, cursor := 1, joinPoint := 0, joinTable := w.hub.values);
    assert Handle(taken, 0, Join(true), 0) == With(taken.(hub := w.hub.(joined := 1)), 0, joined);
    assert Joined(Pump([], Read(Release(joined))));
  }

  lemma JoinStep(w: World)
    requires Invariant(w) && w.hub.config.fanout == 1 && w.hub.joined == 0 && w.hub.log == []
    requires w.sessions == [SendMetadataDone([], Open(), true)]
    ensures Enabled(w, ReadReturned(0, true, Join(true), 0))
    ensures var t := Next(w, ReadReturned(0, true, Join(true), 0));
            |t.sessions| == 1 && Joined(t.sessions[0]) && t.hub == w.hub.(joined := 1)
  {
    JoinRead(w);
  }

  lemma OpenFacts()
    ensures !Open().wire.metadata
  {
  }

  lemma ReplaceOnly(w: World, s: Session, t: Session)
    requires w.sessions == [s]
    ensures With(w, 0, t) == World(w.hub, [t])
  {
    assert [s][0 := t] == [t];
  }

  lemma MetadataStep(w: World, s: Session)
    requires Invariant(w) && w.sessions == [s] && w.hub.log == [] && !s.wire.metadata
    ensures Enabled(w, MetadataSent(0, true))
    ensures Next(w, MetadataSent(0, true)) == World(w.hub, [SendMetadataDone([], s, true)])
  {
    ReplaceOnly(w, s, SendMetadataDone([], s, true));
  }

  lemma FirstSteps(config: Config) returns (steps: seq<Step>)
    requires config.Checked()
    ensures PushTheorems.Run(config, steps)
    ensures PushTheorems.After(config, steps) == World(Start(config).hub, [SendMetadataDone([], Open(), true)])
  {
    StartIsSound(config);
    RunOneMore(config, [], Connect);
    assert [] + [Connect] == [Connect];
    OpenFacts();
    MetadataStep(PushTheorems.After(config, [Connect]), Open());
    RunOneMore(config, [Connect], MetadataSent(0, true));
    steps := [Connect] + [MetadataSent(0, true)];
  }

  lemma Opening(config: Config) returns (steps: seq<Step>)
    requires config.Checked() && config.fanout == 1
    ensures PushTheorems.Run(config, steps)
    ensures var w := PushTheorems.After(config, steps);
            |w.sessions| == 1 && Joined(w.sessions[0]) && w.hub == Start(config).hub.(joined := 1)
  {
    steps := FirstSteps(config);
    var w := PushTheorems.After(config, steps);
    JoinStep(w);
    RunOneMore(config, steps, ReadReturned(0, true, Join(true), 0));
    steps := steps + [ReadReturned(0, true, Join(true), 0)];
  }

  /** A run that publishes n events after Ready while the first write is under way. */
  lemma {:induction false} Stall(config: Config, n: nat) returns (steps: seq<Step>)
    requires config.Checked() && config.fanout == 1
    ensures PushTheorems.Run(config, steps) && Stalled(PushTheorems.After(config, steps))
    ensures |PushTheorems.After(config, steps).hub.log| == n + 1
  {
    if n == 0 {
      steps := Opening(config);
      var w := PushTheorems.After(config, steps);
      RunOneMore(config, steps, Begin);
      ReadyStarts(w.sessions[0]);
      assert w.hub.log + [Ready] == [Ready];
      steps := steps + [Begin];
    } else {
      steps := Stall(config, n - 1);
      PieceStalls(PushTheorems.After(config, steps));
      RunOneMore(config, steps, Piece([]));
      steps := steps + [Piece([])];
    }
  }

  lemma {:induction false} BroadcastsFit(s: seq<Event>)
    ensures |Broadcasts(s)| <= |s|
  {
    if s != [] {
      BroadcastsFit(s[..|s| - 1]);
    }
  }

  lemma StalledFallsBehind(w: World)
    requires Invariant(w) && Stalled(w) && |w.hub.log| > QUEUE + RING
    ensures FallsBehind(w.hub.log, w.sessions[0])
  {
    var log, s := w.hub.log, w.sessions[0];
    assert Settled(w.hub, s);
    assert Stream(s) == s.queue;
    BroadcastsFit(s.queue);
    OverwrittenByDistance(log, s.cursor);
    assert Stream(s)[0] == s.queue[0];
  }

  /** Lag is not only a possibility on paper: some run ends its session for it. */
  lemma LagHappens(config: Config) returns (steps: seq<Step>)
    requires config.Checked() && config.fanout == 1
    ensures PushTheorems.Run(config, steps) && |PushTheorems.After(config, steps).sessions| == 1
    ensures PushTheorems.After(config, steps).sessions[0].status == Exhausted(LAGGED)
  {
    steps := Stall(config, QUEUE + RING);
    var w := PushTheorems.After(config, steps);
    assert Settled(w.hub, w.sessions[0]);
    StalledFallsBehind(w);
    StepLags(w, WriteReturned(0, true), 0);
    RunOneMore(config, steps, WriteReturned(0, true));
    steps := steps + [WriteReturned(0, true)];
  }
}
