/** Why sessions end: every step, and what it does to the state of every call. */
module PushCauses {
  import opened Common
  import opened PushTypes
  import opened Reactor
  import opened SessionModel
  import opened HubModel
  import opened PushLag
  import opened PushAnswers

  datatype Verdict = Stays | EndsWell | Ends(reason: string)

  /** What a message of an open session leads to. */
  function OfMessage(h: Hub, s: Session, input: Control): Verdict {
    if !s.joined then
      if input == Join(true) && h.joined < h.config.fanout then Stays else Ends("join required or recipient limit")
    else
      match input
      case Ping(_) => Stays
      case Publish(request, data) => if request > 0 && |data| <= 1024 then Stays else Ends("invalid publish")
      case Progress(r, true) => if s.drained == Some(r) then Stays else Ends("invalid final progress")
      case Progress(r, false) =>
        if s.lastProgress < r && r <= h.revision then Stays else Ends("invalid progress revision")
      case Join(_) => Ends("invalid control")
      case Unset => Ends("invalid control")
  }

  /** What a step leads to for the open session at place i. */
  ghost function OfStep(w: World, step: Step, i: nat): Verdict
    requires i < |w.sessions|
  {
    var s := w.sessions[i];
    match step
    case MetadataSent(k, ok) => if k == i && !ok then Ends("response metadata failed") else Stays
    case ReadReturned(k, ok, input, _) =>
      if k != i then Stays else if ok then OfMessage(w.hub, s, input) else Ends("control stream closed")
    case WriteReturned(k, ok) =>
      if k != i then Stays
      else if !ok then Ends("event write failed")
      else if s.queue != [] && s.queue[0].Completed? then EndsWell
      else if FallsBehind(w.hub.log, s) then Ends("receiver lagged; resynchronization required")
      else Stays
    case Cancelled(k) => if k == i then Ends("session cancelled") else Stays
    case Shutdown => Ends("server stopping")
    case _ => Stays
  }

  /** The session is in the state the verdict on an open session leads to. */
  ghost predicate Meets(t: Session, v: Verdict) {
    match v
    case Stays => !t.closing && t.status.Ok?
    case EndsWell => t.closing && t.status.Ok?
    case Ends(reason) => t.closing && t.status == Exhausted(reason)
  }

  /** A session that pumping neither ends nor reopens. */
  ghost predicate Firm(log: seq<Event>, s: Session, v: Verdict) {
    Meets(s, v) && (s.closing || Ahead(log, s))
  }

  lemma PumpFirm(log: seq<Event>, log': seq<Event>, s: Session, v: Verdict)
    requires Firm(log, s, v) && |log'| <= |log| + 1
    ensures Meets(Pump(log', s), v)
  {
    if !s.closing {
      FillLagsByDistance(log', s);
      FillFrame(log', s);
    }
  }

  lemma FailMeets(s: Session, reason: string)
    requires !s.closing
    ensures Meets(Fail(s, reason), Ends(reason))
  {
  }

  // ---- messages ----

  lemma AdvanceMeets(h: Hub, s: Session, r: nat, final: bool, now: int)
    requires h.revision == |h.schedule| && |s.histogram| == BUCKETS && Firm(h.log, s, Stays) && s.joined
    ensures Meets(Advance(h, s, r, final, now), OfMessage(h, s, Progress(r, final)))
  {
    if final && s.drained != Some(r) {
      FailMeets(s, "invalid final progress");
    } else if final {
      ReplyMeets(s, Completed(Summary(s, r)));
    } else if s.lastProgress < r && r <= h.revision {
      NoteMeets(s, r, Sample(h, r, now));
    } else {
      FailMeets(s, "invalid progress revision");
    }
  }

  lemma ReplyMeets(s: Session, e: Event)
    requires Meets(s, Stays)
    ensures Meets(Reply(s, e), Stays)
  {
  }

  lemma NoteMeets(s: Session, r: nat, bucket: Option<nat>)
    requires Meets(s, Stays) && (bucket.Some? ==> bucket.value < |s.histogram|)
    ensures Meets(Note(s, r, bucket), Stays)
  {
  }

  lemma AdmitMeets(w: World, i: nat, input: Control)
    requires i < |w.sessions| && Meets(w.sessions[i], Stays) && !w.sessions[i].joined
    ensures i < |Admit(w, i, input).sessions|
    ensures Meets(Admit(w, i, input).sessions[i], OfMessage(w.hub, w.sessions[i], input))
  {
  }

  lemma OwnMeets(w: World, i: nat, input: Control, now: int)
    requires w.hub.config.Checked() && i < |w.sessions|
    requires w.hub.revision == |w.hub.schedule| && |w.sessions[i].histogram| == BUCKETS
    requires Firm(w.hub.log, w.sessions[i], Stays) && !(w.sessions[i].joined && input.Publish?)
    ensures var t := Handle(w, i, input, now);
            && i < |t.sessions| && t.hub.log == w.hub.log
            && Firm(t.hub.log, t.sessions[i], OfMessage(w.hub, w.sessions[i], input))
  {
    HandleOwnAhead(w, i, input, now, i);
    if !w.sessions[i].joined {
      AdmitMeets(w, i, input);
    } else if input.Progress? {
      AdvanceMeets(w.hub, w.sessions[i], input.revision, input.final, now);
    }
  }

  lemma PublishMeets(w: World, i: nat, request: nat, data: Bytes, now: int)
    requires Inside(w, i) && w.sessions[i].joined && Firm(w.hub.log, w.sessions[i], Stays)
    ensures var t := Forward(w, i, request, data, now);
            && i < |t.sessions|
            && Firm(t.hub.log, t.sessions[i], OfMessage(w.hub, w.sessions[i], Control.Publish(request, data)))
  {
    ForwardAhead(w, i, request, data, now, i);
    if request != 0 && |data| <= 1024 && !w.hub.finished {
      PumpFirm(w.hub.log, w.hub.log + [UpdateEvent(w.hub, Catalog, data)], w.sessions[i], Stays);
    }
  }

  lemma HandleMeets(w: World, i: nat, input: Control, now: int)
    requires Inside(w, i) && Firm(w.hub.log, w.sessions[i], Stays)
    ensures var t := Handle(w, i, input, now);
            i < |t.sessions| && Firm(t.hub.log, t.sessions[i], OfMessage(w.hub, w.sessions[i], input))
  {
    if w.sessions[i].joined && input.Publish? {
      PublishMeets(w, i, input.request, input.data, now);
    } else {
      OwnMeets(w, i, input, now);
    }
  }

  /** A session that is open while another one's message is handled stays open. */
  lemma OthersMeet(w: World, i: nat, input: Control, now: int, j: nat)
    requires Inside(w, i) && j < |w.sessions| && j != i && Firm(w.hub.log, w.sessions[j], Stays)
    ensures var t := Handle(w, i, input, now);
            j < |t.sessions| && Meets(t.sessions[j], Stays)
  {
    if w.sessions[i].joined && input.Publish? && input.request != 0 && |input.data| <= 1024 && !w.hub.finished {
      PumpFirm(w.hub.log, w.hub.log + [UpdateEvent(w.hub, Catalog, input.data)], w.sessions[j], Stays);
    }
  }

  lemma ResumeMeets(w: World, k: nat, v: Verdict)
    requires k < |w.sessions| && Firm(w.hub.log, w.sessions[k], v)
    ensures Meets(Pump(w.hub.log, Read(Release(w.sessions[k]))), v)
  {
    PumpFirm(w.hub.log, w.hub.log, Read(Release(w.sessions[k])), v);
  }

  // ---- steps ----

  /** The step leads the open session at place i where the verdict says. */
  ghost predicate Judged(w: World, step: Step, i: nat)
    requires Invariant(w) && Enabled(w, step) && i < |w.sessions|
  {
    && Where(step, i) < |Next(w, step).sessions|
    && Meets(Next(w, step).sessions[Where(step, i)], OfStep(w, step, i))
  }

  lemma OpenIsFirm(h: Hub, s: Session)
    requires Settled(h, s) && !s.closing
    ensures Firm(h.log, s, Stays)
  {
  }

  lemma ReadJudged(w: World, step: Step, i: nat)
    requires Invariant(w) && Enabled(w, step) && step.ReadReturned? && i < |w.sessions| && !w.sessions[i].closing
    ensures Judged(w, step, i)
  {
    assert Settled(w.hub, w.sessions[step.i]) && Settled(w.hub, w.sessions[i]);
    OpenIsFirm(w.hub, w.sessions[i]);
    if step.ok {
      TakeOver(w, step.i);
      if step.i == i {
        OwnJudged(w, i, step.input, step.now);
      } else {
        OtherJudged(w, step.i, step.input, step.now, i);
      }
    } else {
      HungUp(w, step.i, i);
    }
  }

  lemma HungUp(w: World, k: nat, i: nat)
    requires k < |w.sessions| && w.sessions[k].wire.readsOut > 0 && i < |w.sessions| && Meets(w.sessions[i], Stays)
    ensures var t := Fail(ReadOver(w.sessions[k]), "control stream closed");
            Meets(With(w, k, t).sessions[i], if k == i then Ends("control stream closed") else Stays)
  {
  }

  /** A session's own message. */
  lemma OwnJudged(w: World, i: nat, input: Control, now: int)
    requires i < |w.sessions| && w.sessions[i].wire.readsOut > 0
    requires Inside(With(w, i, Receive(w.sessions[i])), i) && Firm(w.hub.log, w.sessions[i], Stays)
    ensures w.hub.revision == |w.hub.schedule| && |w.sessions[i].histogram| == BUCKETS && w.hub.config.Checked()
    ensures var t := ReadCompleted(w, i, true, input, now);
            i < |t.sessions| && Meets(t.sessions[i], OfMessage(w.hub, w.sessions[i], input))
  {
    var taken := With(w, i, Receive(w.sessions[i]));
    HandleMeets(taken, i, input, now);
    ResumeMeets(Handle(taken, i, input, now), i, OfMessage(w.hub, taken.sessions[i], input));
  }

  /** The message of another session. */
  lemma OtherJudged(w: World, k: nat, input: Control, now: int, i: nat)
    requires k < |w.sessions| && i < |w.sessions| && k != i && w.sessions[k].wire.readsOut > 0
    requires Inside(With(w, k, Receive(w.sessions[k])), k) && Firm(w.hub.log, w.sessions[i], Stays)
    ensures w.hub.revision == |w.hub.schedule| && |w.sessions[k].histogram| == BUCKETS && w.hub.config.Checked()
    ensures var t := ReadCompleted(w, k, true, input, now);
            i < |t.sessions| && Meets(t.sessions[i], Stays)
  {
    var taken := With(w, k, Receive(w.sessions[k]));
    HandleKeeps(taken, k, input, now);
    OthersMeet(taken, k, input, now, i);
  }

  lemma WriteJudged(w: World, k: nat, ok: bool, i: nat)
    requires Invariant(w) && Enabled(w, WriteReturned(k, ok)) && i < |w.sessions| && !w.sessions[i].closing
    ensures Judged(w, WriteReturned(k, ok), i)
  {
    assert Settled(w.hub, w.sessions[k]) && Settled(w.hub, w.sessions[i]);
    if k == i {
      WriteMeets(w.hub.log, w.sessions[i], ok);
    }
  }

  lemma WriteMeets(log: seq<Event>, s: Session, ok: bool)
    requires Core(log, s) && s.writing && !s.closing
    ensures Meets(WriteCompleted(log, s, ok),
                  if !ok then Ends("event write failed")
                  else if s.queue[0].Completed? then EndsWell
                  else if FallsBehind(log, s) then Ends(LAGGED)
                  else Stays)
  {
    if ok && !s.queue[0].Completed? {
      FillLags(log, Popped(s, true));
      FillFrame(log, Popped(s, true));
    }
  }

  lemma MetadataJudged(w: World, k: nat, ok: bool, i: nat)
    requires Invariant(w) && Enabled(w, MetadataSent(k, ok)) && i < |w.sessions| && !w.sessions[i].closing
    ensures Judged(w, MetadataSent(k, ok), i)
  {
    assert Settled(w.hub, w.sessions[i]);
    OpenIsFirm(w.hub, w.sessions[i]);
    if k == i {
      MetadataMeets(w.hub.log, w.sessions[i], ok);
    }
  }

  lemma MetadataMeets(log: seq<Event>, s: Session, ok: bool)
    requires Firm(log, s, Stays)
    ensures Meets(SendMetadataDone(log, s, ok), if ok then Stays else Ends("response metadata failed"))
  {
    var t := s.(metadata := true, wire := MetadataDone(s.wire));
    if ok {
      PumpFirm(log, log, t, Stays);
    } else {
      PumpFirm(log, log, Fail(t, "response metadata failed"), Ends("response metadata failed"));
    }
  }

  lemma RestJudged(w: World, step: Step, i: nat)
    requires Invariant(w) && Enabled(w, step) && i < |w.sessions| && !w.sessions[i].closing
    requires step.Cancelled? || step.Shutdown? || step.Connect? || step.GiveUp?
    ensures Judged(w, step, i)
  {
    assert Settled(w.hub, w.sessions[i]);
  }

  lemma DoneJudged(w: World, k: nat, i: nat)
    requires Invariant(w) && Enabled(w, Done(k)) && i < |w.sessions| && !w.sessions[i].closing
    ensures Judged(w, Done(k), i)
  {
    FinishedIsClosing(w.hub, w.sessions[k]);
    RemovedShifts(w.sessions, k, i);
    assert Settled(w.hub, w.sessions[i]);
  }

  lemma ProducerJudged(w: World, step: Step, i: nat)
    requires Invariant(w) && Enabled(w, step) && (step.Begin? || step.Produce? || step.Piece? || step.Drain?)
    requires i < |w.sessions| && !w.sessions[i].closing
    ensures Judged(w, step, i)
  {
    assert Settled(w.hub, w.sessions[i]);
    OpenIsFirm(w.hub, w.sessions[i]);
    PumpFirm(w.hub.log, Next(w, step).hub.log, w.sessions[i], Stays);
  }

  /** Every end has its cause: an open session is ended by exactly these steps, for exactly these reasons. */
  lemma EveryEndHasItsCause(w: World, step: Step, i: nat)
    requires Invariant(w) && Enabled(w, step) && i < |w.sessions| && !w.sessions[i].closing
    ensures Judged(w, step, i)
  {
    match step
    case ReadReturned(_, _, _, _) => ReadJudged(w, step, i);
    case WriteReturned(k, ok) => WriteJudged(w, k, ok, i);
    case MetadataSent(k, ok) => MetadataJudged(w, k, ok, i);
    case Done(k) => DoneJudged(w, k, i);
    case Cancelled(k) => RestJudged(w, step, i);
    case Shutdown => RestJudged(w, step, i);
    case Connect => RestJudged(w, step, i);
    case GiveUp => RestJudged(w, step, i);
    case _ => ProducerJudged(w, step, i);
  }

  /** The first end decides: a session that is closing keeps its status, whatever happens. */
  lemma FirstEndDecides(w: World, step: Step, i: nat)
    requires Invariant(w) && Enabled(w, step) && i < |w.sessions| && w.sessions[i].closing && step != Done(i)
    ensures Where(step, i) < |Next(w, step).sessions|
    ensures var t := Next(w, step).sessions[Where(step, i)];
            t.closing && t.status == w.sessions[i].status
  {
    StepAnswers(w, step, i);
  }
}
