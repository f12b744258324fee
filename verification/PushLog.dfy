/** What every step of a run writes to the log: which event, under which key, at which time. */
module PushLog {
  import opened Common
  import opened PushTypes
  import opened Reactor
  import opened SessionModel
  import opened HubModel
  import opened PushAnswers
  import opened PushHistory
  import opened PushTheorems
  import KeyNames

  /** The event is the update of this revision: its key names the entry whose turn it is. */
  ghost predicate IsUpdate(config: Config, e: Event, revision: nat, domain: Domain, data: Bytes) {
    && e.Update? && e.revision == revision && e.data == data && e.domain == domain
    && KeyNames.Turns(config, domain) > 0
    && KeyNames.EntryName(domain, revision % KeyNames.Turns(config, domain), e.key)
  }

  lemma UpdateIs(h: Hub, domain: Domain, data: Bytes)
    requires h.config.Checked()
    ensures IsUpdate(h.config, UpdateEvent(h, domain, data), h.revision + 1, domain, data)
  {
    KeyNames.UpdateKeySpells(h.config, domain, h.revision + 1);
  }

  /** The step makes an update: it is the producer's, or an accepted publication of a joined session. */
  predicate Makes(w: World, step: Step) {
    match step
    case Produce(_, _, _) => true
    case ReadReturned(i, ok, input, _) =>
      && i < |w.sessions| && ok && w.sessions[i].joined && !w.hub.finished
      && input.Publish? && input.request != 0 && |input.data| <= 1024
    case _ => false
  }

  function DomainOf(step: Step): Domain {
    if step.Produce? then step.domain else Catalog
  }

  function DataOf(step: Step): Bytes {
    match step
    case Produce(_, data, _) => data
    case ReadReturned(_, _, input, _) => if input.Publish? then input.data else []
    case _ => []
  }

  /** The time an update counts from: the planned one of the producer, or that of the publication. */
  function TimeOf(step: Step): int {
    match step
    case Produce(_, _, scheduled) => scheduled
    case ReadReturned(_, _, _, now) => now
    case _ => 0
  }

  /** What a step does to the log, the revision and the times of the revisions. */
  ghost predicate Writes(w: World, step: Step, h: Hub) {
    if Makes(w, step) then
      && |h.log| == |w.hub.log| + 1 && h.log[..|w.hub.log|] == w.hub.log
      && IsUpdate(w.hub.config, h.log[|w.hub.log|], w.hub.revision + 1, DomainOf(step), DataOf(step))
      && h.revision == w.hub.revision + 1 && h.schedule == w.hub.schedule + [TimeOf(step)]
      && h.config == w.hub.config
    else
      && h.revision == w.hub.revision && h.schedule == w.hub.schedule && h.config == w.hub.config
      && h.log == w.hub.log +
                  (match step
                   case Begin => [Ready]
                   case Piece(data) => [Snapshot(data)]
                   case Drain => [Drained(w.hub.revision)]
                   case _ => [])
  }

  lemma ApplyWrites(w: World, domain: Domain, data: Bytes, time: int)
    requires w.hub.config.Checked() && !w.hub.finished
    ensures var h := Apply(w, domain, data, time).hub;
            && |h.log| == |w.hub.log| + 1 && h.log[..|w.hub.log|] == w.hub.log
            && IsUpdate(w.hub.config, h.log[|w.hub.log|], w.hub.revision + 1, domain, data)
            && h.revision == w.hub.revision + 1 && h.schedule == w.hub.schedule + [time]
            && h.config == w.hub.config
  {
    UpdateIs(w.hub, domain, data);
  }

  lemma ReadWrites(w: World, i: nat, ok: bool, input: Control, now: int)
    requires w.hub.config.Checked() && i < |w.sessions| && w.sessions[i].wire.readsOut > 0
    requires w.hub.revision == |w.hub.schedule| && |w.sessions[i].histogram| == BUCKETS
    ensures Writes(w, ReadReturned(i, ok, input, now), ReadCompleted(w, i, ok, input, now).hub)
  {
    if ok {
      var taken := With(w, i, Receive(w.sessions[i]));
      if w.sessions[i].joined && input.Publish? {
        PublishWrites(taken, i, input.request, input.data, now);
      } else {
        HandleOwnHub(taken, i, input, now);
      }
    }
  }

  lemma PublishWrites(w: World, i: nat, request: nat, data: Bytes, now: int)
    requires w.hub.config.Checked() && i < |w.sessions|
    ensures var h := Forward(w, i, request, data, now).hub;
            if request != 0 && |data| <= 1024 && !w.hub.finished then h == Apply(w, Catalog, data, now).hub
            else h == w.hub
    ensures !w.hub.finished ==>
              var h := Apply(w, Catalog, data, now).hub;
              && |h.log| == |w.hub.log| + 1 && h.log[..|w.hub.log|] == w.hub.log
              && IsUpdate(w.hub.config, h.log[|w.hub.log|], w.hub.revision + 1, Catalog, data)
              && h.revision == w.hub.revision + 1 && h.schedule == w.hub.schedule + [now]
              && h.config == w.hub.config
  {
    if !w.hub.finished {
      ApplyWrites(w, Catalog, data, now);
    }
  }

  /** Every step writes exactly this. */
  lemma StepWrites(w: World, step: Step)
    requires Invariant(w) && Enabled(w, step)
    ensures Writes(w, step, Next(w, step).hub)
  {
    match step
    case Produce(domain, data, scheduled) => ApplyWrites(w, domain, data, scheduled);
    case ReadReturned(i, ok, input, now) =>
      assert Settled(w.hub, w.sessions[i]);
      ReadWrites(w, i, ok, input, now);
    case _ =>
  }

  // ---- whole runs ----

  /** The states of a run from the start, with what every step wrote. */
  ghost predicate Wrote(config: Config, ws: seq<World>, steps: seq<Step>) {
    && |ws| == |steps| + 1 && ws[0].hub.config == config
    && ws[0].hub.log == [] && ws[0].hub.revision == 0 && ws[0].hub.schedule == []
    && forall k {:trigger steps[k]} :: 0 <= k < |steps| ==> Writes(ws[k], steps[k], ws[k + 1].hub)
  }

  lemma LinkedWrote(config: Config, ws: seq<World>, steps: seq<Step>)
    requires config.Checked() && Linked(ws, steps) && ws[0].hub == Start(config).hub
    ensures Wrote(config, ws, steps)
  {
    forall k | 0 <= k < |steps|
      ensures Writes(ws[k], steps[k], ws[k + 1].hub)
    {
      assert ws[k + 1] == Next(ws[k], steps[k]);
      StepWrites(ws[k], steps[k]);
    }
  }

  /** Step `at` made revision r, at this time. */
  ghost predicate MadeAt(ws: seq<World>, steps: seq<Step>, r: nat, at: nat) {
    at < |steps| && at < |ws| && Makes(ws[at], steps[at]) && ws[at].hub.revision + 1 == r
  }

  lemma {:induction false} RevisionMade(config: Config, ws: seq<World>, steps: seq<Step>, n: nat, r: nat)
    returns (at: nat)
    requires Wrote(config, ws, steps) && n <= |steps| && 1 <= r <= ws[n].hub.revision
    ensures at < n && MadeAt(ws, steps, r, at)
    ensures |ws[n].hub.schedule| == ws[n].hub.revision && ws[n].hub.schedule[r - 1] == TimeOf(steps[at])
  {
    ScheduleSize(config, ws, steps, n);
    ScheduleSize(config, ws, steps, n - 1);
    assert Writes(ws[n - 1], steps[n - 1], ws[n].hub);
    if r <= ws[n - 1].hub.revision {
      at := RevisionMade(config, ws, steps, n - 1, r);
    } else {
      at := n - 1;
    }
  }

  lemma {:induction false} ScheduleSize(config: Config, ws: seq<World>, steps: seq<Step>, n: nat)
    requires Wrote(config, ws, steps) && n <= |steps|
    ensures |ws[n].hub.schedule| == ws[n].hub.revision && ws[n].hub.config == config
    ensures n == 0 ==> ws[n].hub.revision == 0
  {
    if n > 0 {
      ScheduleSize(config, ws, steps, n - 1);
      assert Writes(ws[n - 1], steps[n - 1], ws[n].hub);
    }
  }

  /** Revisions never fall, so that one step only makes each of them. */
  lemma {:induction false} RevisionsRise(config: Config, ws: seq<World>, steps: seq<Step>, k: nat, n: nat)
    requires Wrote(config, ws, steps) && k <= n <= |steps|
    ensures ws[k].hub.revision <= ws[n].hub.revision
  {
    if k < n {
      RevisionsRise(config, ws, steps, k, n - 1);
      assert Writes(ws[n - 1], steps[n - 1], ws[n].hub);
    }
  }

  lemma MadeOnce(config: Config, ws: seq<World>, steps: seq<Step>, r: nat, at: nat, at': nat)
    requires Wrote(config, ws, steps) && MadeAt(ws, steps, r, at) && MadeAt(ws, steps, r, at') && at <= at'
    ensures at == at'
  {
    if at < at' {
      assert Writes(ws[at], steps[at], ws[at + 1].hub);
      RevisionsRise(config, ws, steps, at + 1, at');
    }
  }

  lemma {:induction false} UpdateNamed(config: Config, ws: seq<World>, steps: seq<Step>, n: nat, k: nat)
    requires Wrote(config, ws, steps) && n <= |steps| && k < |ws[n].hub.log| && ws[n].hub.log[k].Update?
    ensures var e := ws[n].hub.log[k];
            IsUpdate(config, e, e.revision, e.domain, e.data)
  {
    ScheduleSize(config, ws, steps, n - 1);
    assert Writes(ws[n - 1], steps[n - 1], ws[n].hub);
    if k < |ws[n - 1].hub.log| {
      assert ws[n].hub.log[k] == ws[n - 1].hub.log[k];
      UpdateNamed(config, ws, steps, n - 1, k);
    }
  }

  /**
   * In every run an update of revision r goes to the entry whose turn it is: its key is the prefix of its
   * domain and six digits of r modulo the number of entries that take turns.
   */
  lemma UpdatesTakeTurns(config: Config, steps: seq<Step>, k: nat)
    requires Run(config, steps) && k < |After(config, steps).hub.log| && After(config, steps).hub.log[k].Update?
    ensures var e := After(config, steps).hub.log[k];
            && KeyNames.Turns(config, e.domain) > 0
            && KeyNames.EntryName(e.domain, e.revision % KeyNames.Turns(config, e.domain), e.key)
  {
    var ws := TrailOf(config, steps);
    TrailEnds(config, steps, ws);
    LinkedWrote(config, ws, steps);
    UpdateNamed(config, ws, steps, |steps|, k);
  }

  lemma TrailEnds(config: Config, steps: seq<Step>, ws: seq<World>)
    requires Run(config, steps) && Trail(config, steps, ws)
    ensures ws[|steps|] == After(config, steps) && ws[0] == Start(config)
  {
    assert steps[..|steps|] == steps && steps[..0] == [];
  }

  /** Two updates of a run change the same entry exactly when they are of one domain and it is the same entry's turn. */
  lemma SameEntryExactly(config: Config, steps: seq<Step>, j: nat, k: nat)
    requires Run(config, steps) && j < |After(config, steps).hub.log| && k < |After(config, steps).hub.log|
    requires After(config, steps).hub.log[j].Update? && After(config, steps).hub.log[k].Update?
    ensures var d, e := After(config, steps).hub.log[j], After(config, steps).hub.log[k];
            && KeyNames.Turns(config, d.domain) > 0 && KeyNames.Turns(config, e.domain) > 0
            && (d.key == e.key <==>
                d.domain == e.domain
                && d.revision % KeyNames.Turns(config, d.domain) == e.revision % KeyNames.Turns(config, e.domain))
  {
    UpdatesTakeTurns(config, steps, j);
    UpdatesTakeTurns(config, steps, k);
    var d, e := After(config, steps).hub.log[j], After(config, steps).hub.log[k];
    KeyNames.OneKeyPerEntry(d.domain, d.revision % KeyNames.Turns(config, d.domain), d.key,
                            e.domain, e.revision % KeyNames.Turns(config, e.domain), e.key);
  }
}
