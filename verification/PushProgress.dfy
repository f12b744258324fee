/** Which sessions can still come to a good end once the producer has finished. */
module PushProgress {
  import opened Common
  import opened PushTypes
  import opened Reactor
  import opened SessionModel
  import opened HubModel
  import opened PushLag
  import opened PushAnswers
  import opened PushHistory
  import PushTheorems

  /** The session joined before the end was published, and the ring still holds the next event it needs. */
  ghost predicate Able(log: seq<Event>, s: Session) {
    s.joined && s.joinPoint < |log| && !Overwritten(log, s.cursor)
  }

  /** The call has been ended without an error. */
  predicate EndedWell(s: Session) {
    s.finishing && s.status.Ok?
  }

  /** What the session has yet to write. */
  function Outstanding(log: seq<Event>, s: Session): int {
    |log| - s.cursor + |s.queue| + |s.controls|
  }

  // ---- one write ----

  lemma {:induction false} FillMoves(log: seq<Event>, s: Session)
    ensures Outstanding(log, Fill(log, s).0) == Outstanding(log, s)
    ensures Fill(log, s).0.cursor >= s.cursor
    decreases QUEUE - |s.queue|
  {
    if CanTake(log, s) {
      TakeOneMoves(log, s);
      FillMoves(log, TakeOne(log, s));
    }
  }

  lemma TakeOneMoves(log: seq<Event>, s: Session)
    requires CanTake(log, s)
    ensures Outstanding(log, TakeOne(log, s)) == Outstanding(log, s) && TakeOne(log, s).cursor >= s.cursor
  {
  }

  /** Pumping an able session takes nothing away from it. */
  lemma PumpStaysAble(log: seq<Event>, s: Session)
    requires Core(log, s) && !s.closing && Able(log, s)
    ensures var t := Pump(log, s);
            !t.closing && Able(log, t) && t.metadata == s.metadata && Outstanding(log, t) == Outstanding(log, s)
  {
    PumpFailsExactlyOnLag(log, s);
    FillFrame(log, s);
    FillMoves(log, s);
    OverwrittenByDistance(log, s.cursor);
    OverwrittenByDistance(log, Fill(log, s).0.cursor);
  }

  /** A delivered write ends the call well, or leaves one event less to write. */
  lemma WriteHelps(log: seq<Event>, s: Session)
    requires Core(log, s) && !s.closing && s.writing && Able(log, s)
    ensures var t := WriteCompleted(log, s, true);
            if s.queue[0].Completed? then EndedWell(t)
            else !t.closing && Able(log, t) && t.metadata && Outstanding(log, t) < Outstanding(log, s)
  {
    if !s.queue[0].Completed? {
      DeliveredHelps(log, s);
    }
  }

  lemma DeliveredHelps(log: seq<Event>, s: Session)
    requires Core(log, s) && !s.closing && s.writing && Able(log, s) && !s.queue[0].Completed?
    ensures var t := WriteCompleted(log, s, true);
            !t.closing && Able(log, t) && t.metadata && Outstanding(log, t) < Outstanding(log, s)
  {
    PopKeeps(log, s, true);
    assert Core(log, Popped(s, true));
    PumpStaysAble(log, Popped(s, true));
  }

  // ---- the other messages ----

  lemma MetadataHelps(log: seq<Event>, s: Session)
    requires Core(log, s) && !s.closing && !s.metadata && Able(log, s)
    ensures var t := SendMetadataDone(log, s, true);
            !t.closing && Able(log, t) && t.metadata
  {
    var t := s.(metadata := true, wire := MetadataDone(s.wire));
    assert Stream(t) == Stream(s);
    PumpStaysAble(log, t);
  }

  /** A session that has written everything and has the end in hand. */
  ghost predicate AtRest(log: seq<Event>, s: Session) {
    && !s.closing && !s.finishing && s.status.Ok? && s.metadata && !s.writing && s.reading && s.wire.readsOut == 1
    && s.queue == [] && s.controls == [] && s.joined && s.cursor == |log| + 1
  }

  lemma IdleIsAtRest(h: Hub, s: Session)
    requires HubInv(h) && h.finished && Settled(h, s) && !s.closing && s.metadata && !s.writing && Able(h.log, s)
    ensures AtRest(h.log, s) && s.drained == Some(h.revision)
  {
  }

  /** The session asks for the end, and the answer is on its way. */
  ghost predicate AnswerUnderWay(s: Session) {
    !s.closing && s.status.Ok? && s.writing && s.queue != [] && s.queue[0].Completed?
  }

  lemma CompletedIsSent(log: seq<Event>, s: Session, c: Event)
    requires AtRest(log, s) && c.Completed?
    ensures AnswerUnderWay(Pump(log, Read(Release(Reply(Receive(s), c)))))
  {
    var t := Read(Release(Reply(Receive(s), c)));
    assert t.controls == [c] && t.queue == [];
    var u := TakeOne(log, t);
    assert u.queue == [c] && u.controls == [];
    assert CanTake(log, t) && !CanTake(log, u) && !Lags(log, u);
    assert Fill(log, t) == (u, false);
  }

  // ---- a sequence of helpful steps ----

  /** A completion of session i that succeeds, or its final progress message. */
  predicate Helpful(step: Step, i: nat, revision: nat) {
    || step == MetadataSent(i, true)
    || step == WriteReturned(i, true)
    || step == ReadReturned(i, true, Progress(revision, true), 0)
  }

  ghost predicate AllHelpful(steps: seq<Step>, i: nat, revision: nat) {
    forall step <- steps :: Helpful(step, i, revision)
  }

  lemma OneBefore(w: World, step: Step, ws: seq<World>, steps: seq<Step>)
    requires Invariant(w) && Enabled(w, step) && Linked(ws, steps) && ws[0] == Next(w, step)
    ensures Linked([w] + ws, [step] + steps)
  {
    var ws', steps' := [w] + ws, [step] + steps;
    forall k | 0 <= k < |steps'|
      ensures Invariant(ws'[k]) && Enabled(ws'[k], steps'[k]) && ws'[k + 1] == Next(ws'[k], steps'[k])
    {
      if k > 0 {
        assert steps'[k] == steps[k - 1];
      }
    }
  }

  /** Session i of a finished hub is on its way: open, able and past its metadata. */
  ghost predicate UnderWay(w: World, i: nat) {
    && w.hub.finished && i < |w.sessions|
    && !w.sessions[i].closing && w.sessions[i].metadata && Able(w.hub.log, w.sessions[i])
  }

  lemma WriteStep(w: World, i: nat)
    requires Invariant(w) && UnderWay(w, i) && w.sessions[i].writing
    ensures Enabled(w, WriteReturned(i, true))
    ensures var t := Next(w, WriteReturned(i, true));
            && t.hub == w.hub && i < |t.sessions|
            && if w.sessions[i].queue != [] && w.sessions[i].queue[0].Completed? then EndedWell(t.sessions[i])
               else UnderWay(t, i) &&
                    Outstanding(w.hub.log, t.sessions[i]) < Outstanding(w.hub.log, w.sessions[i])
  {
    assert Settled(w.hub, w.sessions[i]);
    WriteHelps(w.hub.log, w.sessions[i]);
  }

  lemma OutstandingIsNatural(w: World, i: nat)
    requires Invariant(w) && UnderWay(w, i)
    ensures Outstanding(w.hub.log, w.sessions[i]) >= if w.sessions[i].writing then 0 else -1
  {
    assert Settled(w.hub, w.sessions[i]);
  }

  lemma MetadataStep(w: World, i: nat)
    requires Invariant(w) && w.hub.finished && i < |w.sessions| && !w.sessions[i].closing
    requires !w.sessions[i].metadata && Able(w.hub.log, w.sessions[i])
    ensures Enabled(w, MetadataSent(i, true)) && Next(w, MetadataSent(i, true)).hub == w.hub
    ensures UnderWay(Next(w, MetadataSent(i, true)), i)
  {
    assert Settled(w.hub, w.sessions[i]);
    MetadataHelps(w.hub.log, w.sessions[i]);
  }

  /** The final progress message of a session at rest. */
  lemma AskForTheEnd(w: World, i: nat)
    requires Invariant(w) && UnderWay(w, i) && !w.sessions[i].writing
    ensures Enabled(w, ReadReturned(i, true, Progress(w.hub.revision, true), 0))
    ensures var t := Next(w, ReadReturned(i, true, Progress(w.hub.revision, true), 0));
            t.hub == w.hub && i < |t.sessions| && AnswerUnderWay(t.sessions[i])
  {
    var s := w.sessions[i];
    assert Settled(w.hub, s);
    IdleIsAtRest(w.hub, s);
    AskedRead(w, i);
  }

  lemma AskedRead(w: World, i: nat)
    requires i < |w.sessions| && AtRest(w.hub.log, w.sessions[i]) && w.sessions[i].drained == Some(w.hub.revision)
    requires w.hub.config.Checked() && w.hub.revision == |w.hub.schedule| && |w.sessions[i].histogram| == BUCKETS
    ensures var t := ReadCompleted(w, i, true, Progress(w.hub.revision, true), 0);
            t.hub == w.hub && i < |t.sessions| && AnswerUnderWay(t.sessions[i])
  {
    var s := Receive(w.sessions[i]);
    CompletedIsSent(w.hub.log, w.sessions[i], Completed(Summary(s, w.hub.revision)));
  }

  lemma LastWrite(w: World, i: nat)
    requires Invariant(w) && i < |w.sessions| && AnswerUnderWay(w.sessions[i])
    ensures Enabled(w, WriteReturned(i, true))
    ensures i < |Next(w, WriteReturned(i, true)).sessions|
    ensures EndedWell(Next(w, WriteReturned(i, true)).sessions[i])
  {
    assert Settled(w.hub, w.sessions[i]);
  }

  /** The steps lead from w, are all helpful to session i, and end its call well. */
  ghost predicate Leads(w: World, i: nat, ws: seq<World>, steps: seq<Step>) {
    && Linked(ws, steps) && ws[0] == w && Invariant(Last(ws)) && AllHelpful(steps, i, w.hub.revision)
    && i < |Last(ws).sessions| && EndedWell(Last(ws).sessions[i])
  }

  lemma LeadsSooner(w: World, i: nat, step: Step, ws: seq<World>, steps: seq<Step>)
    requires Invariant(w) && Enabled(w, step) && Leads(Next(w, step), i, ws, steps)
    requires Helpful(step, i, w.hub.revision) && Next(w, step).hub == w.hub
    ensures Leads(w, i, [w] + ws, [step] + steps)
  {
    OneBefore(w, step, ws, steps);
    assert Last([w] + ws) == Last(ws);
  }

  lemma LeadsAtOnce(w: World, i: nat, step: Step)
    requires Invariant(w) && Enabled(w, step) && Helpful(step, i, w.hub.revision)
    requires i < |Next(w, step).sessions| && EndedWell(Next(w, step).sessions[i])
    ensures Leads(w, i, [w, Next(w, step)], [step])
  {
    StepKeeps(w, step);
    LinkedSnoc([w], [], step);
    assert [w] + [Next(w, step)] == [w, Next(w, step)] && [] + [step] == [step];
  }

  /** From rest: one message and one write. */
  lemma Finish(w: World, i: nat) returns (ws: seq<World>, steps: seq<Step>)
    requires Invariant(w) && UnderWay(w, i) && !w.sessions[i].writing
    ensures Leads(w, i, ws, steps)
  {
    var ask, write := ReadReturned(i, true, Progress(w.hub.revision, true), 0), WriteReturned(i, true);
    AskForTheEnd(w, i);
    StepKeeps(w, ask);
    var v := Next(w, ask);
    LastWrite(v, i);
    LeadsAtOnce(v, i, write);
    LeadsSooner(w, i, ask, [v, Next(v, write)], [write]);
    ws, steps := [w] + [v, Next(v, write)], [ask] + [write];
  }

  /** Delivered writes end the call well or bring the session to rest. */
  lemma {:induction false} FinishFrom(w: World, i: nat, bound: nat) returns (ws: seq<World>, steps: seq<Step>)
    requires Invariant(w) && UnderWay(w, i) && Outstanding(w.hub.log, w.sessions[i]) < bound
    ensures Leads(w, i, ws, steps)
    decreases bound
  {
    if !w.sessions[i].writing {
      ws, steps := Finish(w, i);
    } else {
      var step := WriteReturned(i, true);
      WriteStep(w, i);
      StepKeeps(w, step);
      var v := Next(w, step);
      if EndedWell(v.sessions[i]) {
        LeadsAtOnce(w, i, step);
        ws, steps := [w, v], [step];
      } else {
        OutstandingIsNatural(w, i);
        ws, steps := FinishFrom(v, i, bound - 1);
        LeadsSooner(w, i, step, ws, steps);
        ws, steps := [w] + ws, [step] + steps;
      }
    }
  }

  /** An able session is brought to a good end by successful completions and one final progress message alone. */
  lemma FinishOpen(w: World, i: nat) returns (ws: seq<World>, steps: seq<Step>)
    requires Invariant(w) && w.hub.finished && i < |w.sessions| && !w.sessions[i].closing
    requires Able(w.hub.log, w.sessions[i])
    ensures Leads(w, i, ws, steps)
  {
    if w.sessions[i].metadata {
      OutstandingIsNatural(w, i);
      ws, steps := FinishFrom(w, i, Outstanding(w.hub.log, w.sessions[i]) + 1);
    } else {
      var step := MetadataSent(i, true);
      MetadataStep(w, i);
      StepKeeps(w, step);
      var v := Next(w, step);
      OutstandingIsNatural(v, i);
      ws, steps := FinishFrom(v, i, Outstanding(v.hub.log, v.sessions[i]) + 1);
      LeadsSooner(w, i, step, ws, steps);
      ws, steps := [w] + ws, [step] + steps;
    }
  }

  // ---- sessions that cannot ----

  lemma WellIsAble(h: Hub, s: Session)
    requires HubInv(h) && InStep(h, s) && EndedWell(s)
    ensures Able(h.log, s)
  {
    var n := |s.wire.delivered| - 1;
    assert Stream(s)[n] == s.wire.delivered[n];
    assert Caught(h.log, s);
    OverwrittenByDistance(h.log, s.cursor);
  }

  /** A joined session of a finished hub that is not able stays so. */
  ghost predicate Doomed(w: World, i: nat) {
    w.hub.finished && i < |w.sessions| && w.sessions[i].joined && !Able(w.hub.log, w.sessions[i])
  }

  lemma DoomedStep(w: World, step: Step, i: nat)
    requires Invariant(w) && Enabled(w, step) && Doomed(w, i) && step != Done(i)
    ensures Doomed(Next(w, step), Where(step, i))
  {
    StepAnswers(w, step, i);
    PushTheorems.FinishedIsFinal(w, step);
  }

  ghost predicate DoomStays(ws: seq<World>, steps: seq<Step>) {
    && |ws| == |steps| + 1
    && forall k, j: nat {:trigger Doomed(ws[k], j)} :: 0 <= k < |steps| && Doomed(ws[k], j) && steps[k] != Done(j) ==>
         Doomed(ws[k + 1], Where(steps[k], j))
  }

  lemma {:induction false} DoomPasses(ws: seq<World>, steps: seq<Step>, n: nat, i: nat)
    requires DoomStays(ws, steps) && n <= |steps| && Doomed(ws[0], i) && Stays(steps[..n], i)
    ensures Doomed(ws[n], Follow(steps[..n], i))
  {
    if n > 0 {
      assert steps[..n] == steps[..n - 1] + [steps[n - 1]];
      FollowSnoc(steps[..n - 1], steps[n - 1], i);
      DoomPasses(ws, steps, n - 1, i);
    }
  }

  lemma LinkedDoom(ws: seq<World>, steps: seq<Step>)
    requires Linked(ws, steps)
    ensures DoomStays(ws, steps)
  {
    forall k, j: nat | 0 <= k < |steps| && Doomed(ws[k], j) && steps[k] != Done(j)
      ensures Doomed(ws[k + 1], Where(steps[k], j))
    {
      DoomedStep(ws[k], steps[k], j);
    }
  }

  /** The steps lead from w through the states ws to a good end of the session that was at place i. */
  ghost predicate EndsWell(w: World, i: nat, ws: seq<World>, steps: seq<Step>) {
    && Linked(ws, steps) && ws[0] == w && Invariant(Last(ws)) && Stays(steps, i)
    && Follow(steps, i) < |Last(ws).sessions| && EndedWell(Last(ws).sessions[Follow(steps, i)])
  }

  lemma DoomedIsNotWell(w: World, i: nat, ws: seq<World>, steps: seq<Step>)
    requires Doomed(w, i)
    ensures !EndsWell(w, i, ws, steps)
  {
    if Linked(ws, steps) && ws[0] == w && Invariant(Last(ws)) && Stays(steps, i) {
      assert steps[..|steps|] == steps;
      LinkedDoom(ws, steps);
      DoomPasses(ws, steps, |steps|, i);
      DoomedNow(Last(ws), Follow(steps, i));
    }
  }

  lemma DoomedNow(w: World, i: nat)
    requires Invariant(w) && Doomed(w, i)
    ensures !EndedWell(w.sessions[i])
  {
    assert Settled(w.hub, w.sessions[i]);
    if EndedWell(w.sessions[i]) {
      WellIsAble(w.hub, w.sessions[i]);
      assert false;
    }
  }

  lemma {:induction false} HelpfulStays(steps: seq<Step>, i: nat, revision: nat)
    requires AllHelpful(steps, i, revision)
    ensures Stays(steps, i) && Follow(steps, i) == i
  {
    if steps != [] {
      assert Helpful(Last(steps), i, revision);
      HelpfulStays(steps[..|steps| - 1], i, revision);
    }
  }

  /**
   * In every run in which the producer has finished: an open joined session can still come to a good end
   * exactly when it joined before the end was published and the ring still holds its next event.  If it
   * can, successful completions and one final progress message are enough.
   */
  lemma EndsWellExactly(config: Config, run: seq<Step>, i: nat)
    requires PushTheorems.Run(config, run) && PushTheorems.After(config, run).hub.finished
    requires i < |PushTheorems.After(config, run).sessions|
    requires PushTheorems.After(config, run).sessions[i].joined && !PushTheorems.After(config, run).sessions[i].closing
    ensures var w := PushTheorems.After(config, run);
            && ((exists ws, steps :: EndsWell(w, i, ws, steps)) <==> Able(w.hub.log, w.sessions[i]))
            && (Able(w.hub.log, w.sessions[i]) ==>
                  exists ws, steps :: EndsWell(w, i, ws, steps) && AllHelpful(steps, i, w.hub.revision))
  {
    PushTheorems.RunIsSound(config, run);
    var w := PushTheorems.After(config, run);
    if Able(w.hub.log, w.sessions[i]) {
      var ws, steps := FinishOpen(w, i);
      HelpfulStays(steps, i, w.hub.revision);
      assert EndsWell(w, i, ws, steps);
    } else {
      forall ws, steps
        ensures !EndsWell(w, i, ws, steps)
      {
        DoomedIsNotWell(w, i, ws, steps);
      }
    }
  }

  // ---- a run that ends well ----

  lemma DrainStalled(w: World)
    requires Invariant(w) && Stalled(w) && |w.hub.log| < RING
    ensures Enabled(w, Drain)
    ensures var t := Next(w, Drain);
            t.hub.finished && |t.sessions| == 1 && !t.sessions[0].closing && Able(t.hub.log, t.sessions[0])
  {
    assert Settled(w.hub, w.sessions[0]);
    StuckThroughEvent(w.hub.log, Drained(w.hub.revision), w.sessions[0]);
    OverwrittenByDistance(Next(w, Drain).hub.log, Next(w, Drain).sessions[0].cursor);
  }

  /** A good end is not only a possibility on paper: some run can be carried on to one. */
  lemma GoodEndHappens(config: Config) returns (run: seq<Step>, ws: seq<World>, steps: seq<Step>)
    requires config.Checked() && config.fanout == 1
    ensures PushTheorems.Run(config, run) && Leads(PushTheorems.After(config, run), 0, ws, steps)
  {
    var stall := Stall(config, 0);
    PushTheorems.RunIsSound(config, stall);
    DrainStalled(PushTheorems.After(config, stall));
    RunOneMore(config, stall, Drain);
    run := stall + [Drain];
    PushTheorems.RunIsSound(config, run);
    ws, steps := FinishOpen(PushTheorems.After(config, run), 0);
  }
}
