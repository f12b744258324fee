/** What holds of the push fixture in every run, whatever the peers and the transport do. */
module PushTheorems {
  import opened Common
  import opened PushTypes
  import opened Reactor
  import opened SessionModel
  import opened HubModel
  import Histogram
  import Keys
  import Slots

  ghost predicate Run(config: Config, steps: seq<Step>) {
    config.Checked() && (StartIsSound(config); Executable(Start(config), steps))
  }

  /** The state a run leads to. */
  ghost function After(config: Config, steps: seq<Step>): World
    requires Run(config, steps)
  {
    StartIsSound(config);
    Execute(Start(config), steps)
  }

  lemma RunIsSound(config: Config, steps: seq<Step>)
    requires Run(config, steps)
    ensures Invariant(After(config, steps))
  {
  }

  /**
   * A session that finishes without an error has delivered, in order and without a gap, every
   * broadcast from its join to Drained, then Completed and nothing more; replaying what it
   * delivered over the table it joined with gives the hub's table.
   */
  lemma FinishedSessionsAreComplete(config: Config, steps: seq<Step>, i: nat)
    requires Run(config, steps) && i < |After(config, steps).sessions|
    requires After(config, steps).sessions[i].wire.finishes > 0 && After(config, steps).sessions[i].status.Ok?
    ensures var w := After(config, steps);
            var s := w.sessions[i];
            var sent := s.wire.delivered;
            && w.hub.finished
            && sent != [] && Last(sent).Completed? && Last(sent).report.revision == w.hub.revision
            && s.joinPoint < |w.hub.log| && Last(w.hub.log) == Drained(w.hub.revision)
            && Broadcasts(sent[..|sent| - 1]) == w.hub.log[s.joinPoint..]
            && s.joinTable == Replay(Keys.Initial(w.hub.config), w.hub.log[..s.joinPoint])
            && Replay(s.joinTable, sent) == w.hub.values
  {
    RunIsSound(config, steps);
    var w := After(config, steps);
    var s := w.sessions[i];
    assert Settled(w.hub, s);
    CompleteSession(w.hub, s);
  }

  lemma CompleteSession(h: Hub, s: Session)
    requires HubInv(h) && InStep(h, s) && s.finishing && s.status.Ok?
    ensures var sent := s.wire.delivered;
            && h.finished
            && sent != [] && Last(sent).Completed? && Last(sent).report.revision == h.revision
            && s.joined && s.joinPoint < |h.log| && Last(h.log) == Drained(h.revision)
            && Broadcasts(sent[..|sent| - 1]) == h.log[s.joinPoint..]
            && Replay(s.joinTable, sent) == h.values
  {
    var sent := s.wire.delivered;
    var n := |sent| - 1;
    assert Stream(s)[n] == sent[n] && Stream(s)[..n] == sent[..n];
    assert Caught(h.log, s) && Broadcasts(sent[..n]) == h.log[s.joinPoint..];
    assert Broadcasts(sent) == Broadcasts(sent[..n]);
    CatchUp(Keys.Initial(h.config), h.log, s.joinPoint, sent);
  }

  /** Replaying the missing broadcasts over the table of the join gives the present table. */
  lemma CatchUp(initial: Table, log: seq<Event>, joinPoint: nat, sent: seq<Event>)
    requires joinPoint <= |log| && Broadcasts(sent) == log[joinPoint..]
    ensures Replay(Replay(initial, log[..joinPoint]), sent) == Replay(initial, log)
  {
    ReplayBroadcasts(Replay(initial, log[..joinPoint]), sent);
    ReplayConcat(initial, log[..joinPoint], log[joinPoint..]);
    assert log == log[..joinPoint] + log[joinPoint..];
  }

  /** Once the producer has finished, no step changes the log, the table or the revision. */
  lemma FinishedIsFinal(w: World, step: Step)
    requires Invariant(w) && Enabled(w, step) && w.hub.finished
    ensures Next(w, step).hub.finished
    ensures Next(w, step).hub.log == w.hub.log && Next(w, step).hub.values == w.hub.values
    ensures Next(w, step).hub.revision == w.hub.revision
  {
    match step
    case ReadReturned(i, ok, input, now) =>
      assert Settled(w.hub, w.sessions[i]);
      if ok {
        TakeOver(w, i);
        HandleFinished(With(w, i, Receive(w.sessions[i])), i, input, now);
      }
    case _ =>
  }

  lemma HandleFinished(w: World, i: nat, input: Control, now: int)
    requires Inside(w, i) && w.hub.finished
    ensures var h := Handle(w, i, input, now).hub;
            h == w.hub.(joined := h.joined)
  {
    if w.sessions[i].joined && input.Publish? {
      ForwardFinished(w, i, input.request, input.data, now);
    } else {
      HandleOwnHub(w, i, input, now);
    }
  }

  lemma ForwardFinished(w: World, i: nat, request: nat, data: Bytes, now: int)
    requires w.hub.config.Checked() && i < |w.sessions| && w.hub.finished
    ensures Forward(w, i, request, data, now).hub == w.hub
  {
  }

  lemma HandleOwnHub(w: World, i: nat, input: Control, now: int)
    requires w.hub.config.Checked() && i < |w.sessions|
    requires w.hub.revision == |w.hub.schedule| && |w.sessions[i].histogram| == BUCKETS
    requires !(w.sessions[i].joined && input.Publish?)
    ensures var h := Handle(w, i, input, now).hub;
            h == w.hub.(joined := h.joined)
  {
  }

  lemma {:induction false} FinishedStaysFinal(w: World, steps: seq<Step>)
    requires Invariant(w) && Executable(w, steps) && w.hub.finished
    ensures Execute(w, steps).hub.finished && Execute(w, steps).hub.log == w.hub.log
    ensures Execute(w, steps).hub.values == w.hub.values && Execute(w, steps).hub.revision == w.hub.revision
    decreases |steps|
  {
    if steps != [] {
      FinishedStaysFinal(w, steps[..|steps| - 1]);
      FinishedIsFinal(Execute(w, steps[..|steps| - 1]), Last(steps));
    }
  }

  /**
   * What a joined session has taken is exactly the published events from its join to its cursor;
   * while it has no error, everything it wrote was delivered, so its delivered broadcasts are a
   * prefix of what was published since its join.
   */
  lemma SessionsMissNothing(config: Config, steps: seq<Step>, i: nat)
    requires Run(config, steps) && i < |After(config, steps).sessions|
    requires After(config, steps).sessions[i].joined
    ensures var w := After(config, steps);
            var s := w.sessions[i];
            && s.joinPoint < s.cursor <= |w.hub.log| + 1
            && Broadcasts(s.wire.written + s.queue) == w.hub.log[s.joinPoint..s.cursor - 1]
            && (s.status.Ok? ==> Broadcasts(s.wire.delivered) <= w.hub.log[s.joinPoint..])
  {
    RunIsSound(config, steps);
    var w := After(config, steps);
    var s := w.sessions[i];
    assert Settled(w.hub, s);
    TakenExactly(w.hub.log, s);
  }

  lemma TakenExactly(log: seq<Event>, s: Session)
    requires Flow(log, s) && Outcome(s) && s.joined
    ensures Broadcasts(s.wire.written + s.queue) == log[s.joinPoint..s.cursor - 1]
    ensures s.status.Ok? ==> Broadcasts(s.wire.delivered) <= log[s.joinPoint..]
  {
    OnlyConcat(s.wire.written + s.queue, s.controls, true);
    BroadcastsOfReplies(s.controls);
    OnlyConcat(s.wire.written, s.queue, true);
  }

  /** Between handlers no session waits for a wake-up that will not come. */
  lemma NoLostWakeup(config: Config, steps: seq<Step>, i: nat)
    requires Run(config, steps) && i < |After(config, steps).sessions|
    ensures var w := After(config, steps);
            var s := w.sessions[i];
            && (!s.closing && s.metadata && !s.writing ==>
                  && s.queue == [] && s.controls == []
                  && (s.joined ==> s.cursor == |w.hub.log| + 1)
                  && !s.wire.lastHint)
            && s.wire.hintRun <= HINTS
            && (!s.closing && !s.reading ==> |s.controls| == REPLIES && |s.queue| == QUEUE)
            && (s.closing && s.wire.finishes == 0 ==> s.wire.writeOut.Some? || !s.wire.metadata)
  {
    RunIsSound(config, steps);
    assert Settled(After(config, steps).hub, After(config, steps).sessions[i]);
  }

  /** The stream's rules are never broken and the queues keep their bounds. */
  lemma ReactorDiscipline(config: Config, steps: seq<Step>, i: nat)
    requires Run(config, steps) && i < |After(config, steps).sessions|
    ensures var s := After(config, steps).sessions[i];
            && !s.wire.broken
            && s.wire.readsOut <= 1 && s.wire.finishes <= 1
            && (s.wire.writeOut.Some? ==> s.queue != [] && s.wire.writeOut.value == s.queue[0])
            && |s.queue| <= QUEUE && |s.controls| <= REPLIES
  {
    RunIsSound(config, steps);
    assert Settled(After(config, steps).hub, After(config, steps).sessions[i]);
  }

  lemma ForwardMeaning(w: World, i: nat, request: nat, data: Bytes, now: int)
    requires w.hub.config.Checked() && i < |w.sessions| && request != 0 && |data| <= 1024
    ensures var t := Forward(w, i, request, data, now);
            var e := UpdateEvent(w.hub, Catalog, data);
            && |t.sessions| == |w.sessions| && t.sessions[i].controls != []
            && (w.hub.finished ==> t.hub == w.hub && Last(t.sessions[i].controls) == Rejected(request))
            && (!w.hub.finished ==>
                  && t.hub.log == w.hub.log + [e] && t.hub.revision == e.revision
                  && t.hub.values == w.hub.values[e.key := (e.revision, data)]
                  && Last(t.sessions[i].controls) == Accepted(request))
  {
  }

  lemma UpdateNamesEntry(h: Hub, domain: Domain, data: Bytes)
    requires HubInv(h)
    ensures UpdateEvent(h, domain, data).key in h.values
  {
    Keys.KeyExists(h.config, domain, h.revision + 1);
  }

  /**
   * A valid publication is atomic: before the producer has finished it becomes the next update, in
   * the log and in an existing entry of the table, and is answered with Accepted; afterwards it
   * changes nothing and is answered with Rejected.
   */
  lemma PublishIsAtomic(w: World, i: nat, request: nat, data: Bytes, now: int)
    requires HubInv(w.hub) && i < |w.sessions| && w.sessions[i].joined && |w.sessions[i].histogram| == BUCKETS
    requires request != 0 && |data| <= 1024
    ensures var t := Handle(w, i, Control.Publish(request, data), now);
            var e := UpdateEvent(w.hub, Catalog, data);
            && e.revision == w.hub.revision + 1 && e.key in w.hub.values && e.data == data
            && |t.sessions| == |w.sessions| && t.sessions[i].controls != []
            && (w.hub.finished ==> t.hub == w.hub && Last(t.sessions[i].controls) == Rejected(request))
            && (!w.hub.finished ==>
                  && t.hub.log == w.hub.log + [e] && t.hub.revision == e.revision
                  && t.hub.values == w.hub.values[e.key := (e.revision, data)]
                  && Last(t.sessions[i].controls) == Accepted(request))
  {
    UpdateNamesEntry(w.hub, Catalog, data);
    ForwardMeaning(w, i, request, data, now);
  }

  /** Entry j of the log is the last update of key k. */
  ghost predicate Newest(log: seq<Event>, j: int, k: string) {
    && 0 <= j < |log| && log[j].Update? && log[j].key == k
    && forall m :: j < m < |log| && log[m].Update? ==> log[m].key != k
  }

  ghost predicate Touched(log: seq<Event>, k: string) {
    exists j :: 0 <= j < |log| && log[j].Update? && log[j].key == k
  }

  /**
   * The key set never changes; an entry that was updated holds the update with the largest
   * revision for its key, and any other entry is the initial one.
   */
  lemma TableHoldsLatest(config: Config, steps: seq<Step>, k: string)
    requires Run(config, steps) && k in After(config, steps).hub.values
    ensures var h := After(config, steps).hub;
            && h.config.Checked()
            && h.values.Keys == Keys.Initial(h.config).Keys
            && (Touched(h.log, k) ==>
                  exists j :: Newest(h.log, j, k) && h.values[k] == (h.log[j].revision, h.log[j].data))
            && (!Touched(h.log, k) ==> h.values[k] == Keys.Initial(h.config)[k])
            && (forall j {:trigger h.log[j]} :: 0 <= j < |h.log| && h.log[j].Update? && h.log[j].key == k ==>
                  h.log[j].revision <= h.values[k].0)
  {
    RunIsSound(config, steps);
    var h := After(config, steps).hub;
    LatestEntry(Keys.Initial(h.config), h.log, k);
    forall j | 0 <= j < |h.log| && h.log[j].Update? && h.log[j].key == k
      ensures h.log[j].revision <= h.values[k].0
    {
      assert Touched(h.log, k);
      var m :| Newest(h.log, m, k) && h.values[k] == (h.log[m].revision, h.log[m].data);
      UpdatesMonotone(h.log, j + 1, m + 1);
    }
  }

  lemma {:induction false} LatestEntry(t: Table, log: seq<Event>, k: string)
    requires k in t
    ensures k in Replay(t, log)
    ensures Touched(log, k) ==> exists j :: Newest(log, j, k) && Replay(t, log)[k] == (log[j].revision, log[j].data)
    ensures !Touched(log, k) ==> Replay(t, log)[k] == t[k]
  {
    if log != [] {
      var front, n := log[..|log| - 1], |log| - 1;
      LatestEntry(t, front, k);
      if log[n].Update? && log[n].key == k {
        assert Newest(log, n, k);
      } else if Touched(front, k) {
        var j :| Newest(front, j, k) && Replay(t, front)[k] == (front[j].revision, front[j].data);
        assert Newest(log, j, k);
      } else {
        assert forall j :: 0 <= j < |front| ==> front[j] == log[j];
      }
    }
  }

  /** A progress report is a sample exactly when its revision is among the last 16384. */
  lemma SampledIffRecent(h: Hub, revision: nat)
    requires 1 <= revision <= h.revision
    ensures Live(h, revision) <==> h.revision - revision < STAMPS
  {
    Slots.HolderIsLive(h.revision, STAMPS, revision);
  }

  /**
   * Statistics in every run: each accepted report is a sample or expired, the histogram counts
   * the samples, and the reported percentiles are ordered nearest-rank buckets.
   */
  lemma StatisticsAreExact(config: Config, steps: seq<Step>, i: nat)
    requires Run(config, steps) && i < |After(config, steps).sessions|
    ensures var s := After(config, steps).sessions[i];
            && s.reports == s.samples + s.expired
            && Histogram.Below(s.histogram, |s.histogram|) == s.samples == |s.recorded|
            && (forall revision :: var r := Summary(s, revision); r.p50 <= r.p95 <= r.p99)
            && (s.samples > 0 ==>
                  forall p {:trigger Histogram.Percentile(s.histogram, s.samples, p)} :: 1 <= p <= 100 ==>
                    NearestRank(s.recorded, p, Histogram.Percentile(s.histogram, s.samples, p)))
  {
    RunIsSound(config, steps);
    var s := After(config, steps).sessions[i];
    assert Settled(After(config, steps).hub, s);
    Histogram.CountAll(s.recorded, |s.histogram|);
    Histogram.PercentileMonotone(s.histogram, s.recorded, 50, 95);
    Histogram.PercentileMonotone(s.histogram, s.recorded, 95, 99);
    if s.samples > 0 {
      forall p | 1 <= p <= 100
        ensures NearestRank(s.recorded, p, Histogram.Percentile(s.histogram, s.samples, p))
      {
        RankedBucket(s.histogram, s.recorded, p);
      }
    }
  }

  /** Rank r is the least that covers p percent of the samples, and the sample of that rank is in bucket b. */
  ghost predicate InRank(recorded: seq<nat>, p: nat, b: nat, r: nat) {
    && 100 * r >= |recorded| * p && (r > 0 ==> 100 * (r - 1) < |recorded| * p)
    && Histogram.CountBelow(recorded, b) < r <= Histogram.CountBelow(recorded, b + 1)
  }

  lemma RankedBucket(h: seq<nat>, recorded: seq<nat>, p: nat)
    requires Histogram.Tallies(h, recorded) && recorded != [] && 1 <= p <= 100
    ensures NearestRank(recorded, p, Histogram.Percentile(h, |recorded|, p))
  {
    var b := Histogram.PercentileIsNearestRank(h, recorded, p);
    Histogram.RankIsLeast(|recorded|, p);
    assert InRank(recorded, p, b, Histogram.Rank(|recorded|, p));
  }

  /** The value is the upper edge of the bucket of the sample whose rank is p percent, rounded up. */
  ghost predicate NearestRank(recorded: seq<nat>, p: nat, value: nat) {
    exists b: nat, r: nat :: InRank(recorded, p, b, r) && value == (b + 1) * 100
  }
}
