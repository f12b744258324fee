/** Where every reply of a run comes from: the step, the message and the session that earned it. */
module PushHistory {
  import opened Common
  import opened PushTypes
  import opened SessionModel
  import opened HubModel
  import opened PushLag
  import opened PushAnswers
  import opened PushTheorems

  // ---- one session through many steps ----

  /** Where a session is after some steps; those that leave make the later ones move up. */
  function Follow(steps: seq<Step>, place: nat): nat {
    if steps == [] then place else Where(Last(steps), Follow(steps[..|steps| - 1], place))
  }

  /** The session is not the one that leaves. */
  predicate Stays(steps: seq<Step>, place: nat) {
    steps == [] || (Stays(steps[..|steps| - 1], place) && Last(steps) != Done(Follow(steps[..|steps| - 1], place)))
  }

  lemma FollowSnoc(steps: seq<Step>, step: Step, place: nat)
    ensures Follow(steps + [step], place) == Where(step, Follow(steps, place))
    ensures Stays(steps + [step], place) <==> Stays(steps, place) && step != Done(Follow(steps, place))
  {
    assert (steps + [step])[..|steps|] == steps;
  }

  // ---- the message behind a reply ----

  /**
   * Reply number a of session s, now at place i, was earned by `step`, taken in state w: by a message of
   * this very session, which had a replies then and is followed through the rest of the steps to i.
   */
  ghost predicate Behind(w: World, step: Step, rest: seq<Step>, s: Session, i: nat, a: nat) {
    && step.ReadReturned? && step.ok && step.i < |w.sessions| && w.sessions[step.i].joined
    && Stays(rest, step.i) && Follow(rest, step.i) == i
    && a == |Answers(w.sessions[step.i])| && a < |Answers(s)|
    && ReplyTo(w.hub, w.sessions[step.i], step.input) == [Answers(s)[a]]
  }

  lemma BehindStays(w: World, step: Step, rest: seq<Step>, s: Session, i: nat, a: nat, next: Step, t: Session)
    requires Behind(w, step, rest, s, i, a) && next != Done(i) && Answers(s) <= Answers(t)
    ensures Behind(w, step, rest + [next], t, Where(next, i), a)
  {
    FollowSnoc(rest, next, step.i);
  }

  lemma BehindNow(w: World, step: Step, t: Session, i: nat)
    requires i < |w.sessions| && Earned(w, step, i) != []
    requires Answers(t) == Answers(w.sessions[i]) + Earned(w, step, i)
    ensures Behind(w, step, [step], t, i, |Answers(w.sessions[i])|)
  {
    EarnedIsShort(w, step, i);
    FollowSnoc([], step, i);
    assert [] + [step] == [step];
  }

  // ---- the states of a run ----

  /** The states a run goes through, each the step from the one before. */
  ghost predicate Linked(ws: seq<World>, steps: seq<Step>) {
    && |ws| == |steps| + 1
    && forall k {:trigger steps[k]} :: 0 <= k < |steps| ==>
         Invariant(ws[k]) && Enabled(ws[k], steps[k]) && ws[k + 1] == Next(ws[k], steps[k])
  }

  /** The step `at` is behind reply a of the session at place i, after n steps. */
  ghost predicate AskedAt(ws: seq<World>, steps: seq<Step>, n: nat, i: nat, a: nat, at: nat)
    requires |ws| == |steps| + 1 && n <= |steps| && i < |ws[n].sessions|
  {
    at < n && Behind(ws[at], steps[at], steps[at..n], ws[n].sessions[i], i, a)
  }

  ghost predicate Rising(s: seq<nat>) {
    forall a, b :: 0 <= a < b < |s| ==> s[a] < s[b]
  }

  /** The steps behind all replies of a session, in order. */
  ghost predicate Accounted(ws: seq<World>, steps: seq<Step>, n: nat, i: nat, asked: seq<nat>)
    requires |ws| == |steps| + 1 && n <= |steps| && i < |ws[n].sessions|
  {
    && |asked| == |Answers(ws[n].sessions[i])|
    && (forall a {:trigger asked[a]} :: 0 <= a < |asked| ==> AskedAt(ws, steps, n, i, a, asked[a]))
    && Rising(asked)
  }

  /** What stood behind a reply still does one step later. */
  lemma AskedStays(ws: seq<World>, steps: seq<Step>, n: nat, i: nat, a: nat, at: nat)
    requires |ws| == |steps| + 1 && n < |steps| && i < |ws[n].sessions| && AskedAt(ws, steps, n, i, a, at)
    requires steps[n] != Done(i) && Where(steps[n], i) < |ws[n + 1].sessions|
    requires Answers(ws[n].sessions[i]) <= Answers(ws[n + 1].sessions[Where(steps[n], i)])
    ensures AskedAt(ws, steps, n + 1, Where(steps[n], i), a, at)
  {
    assert steps[at..n + 1] == steps[at..n] + [steps[n]];
    BehindStays(ws[at], steps[at], steps[at..n], ws[n].sessions[i], i, a, steps[n],
                ws[n + 1].sessions[Where(steps[n], i)]);
  }

  lemma OldOnesStay(ws: seq<World>, steps: seq<Step>, n: nat, i: nat, asked: seq<nat>)
    requires |ws| == |steps| + 1 && n < |steps| && i < |ws[n].sessions| && Accounted(ws, steps, n, i, asked)
    requires steps[n] != Done(i) && Where(steps[n], i) < |ws[n + 1].sessions|
    requires Answers(ws[n].sessions[i]) <= Answers(ws[n + 1].sessions[Where(steps[n], i)])
    ensures forall a {:trigger asked[a]} :: 0 <= a < |asked| ==>
              AskedAt(ws, steps, n + 1, Where(steps[n], i), a, asked[a]) && asked[a] < n
  {
    forall a | 0 <= a < |asked|
      ensures AskedAt(ws, steps, n + 1, Where(steps[n], i), a, asked[a]) && asked[a] < n
    {
      AskedStays(ws, steps, n, i, a, asked[a]);
    }
  }

  lemma NewOne(ws: seq<World>, steps: seq<Step>, n: nat, i: nat)
    requires |ws| == |steps| + 1 && n < |steps| && i < |ws[n].sessions| && i < |ws[n + 1].sessions|
    requires Earned(ws[n], steps[n], i) != []
    requires Answers(ws[n + 1].sessions[i]) == Answers(ws[n].sessions[i]) + Earned(ws[n], steps[n], i)
    ensures AskedAt(ws, steps, n + 1, i, |Answers(ws[n].sessions[i])|, n)
  {
    BehindNow(ws[n], steps[n], ws[n + 1].sessions[i], i);
    assert steps[n..n + 1] == [steps[n]];
  }

  lemma EarnedNext(ws: seq<World>, steps: seq<Step>, n: nat, i: nat, before: seq<nat>) returns (asked: seq<nat>)
    requires |ws| == |steps| + 1 && n < |steps| && i < |ws[n].sessions| && Accounted(ws, steps, n, i, before)
    requires steps[n] != Done(i) && Where(steps[n], i) < |ws[n + 1].sessions|
    requires Answered(ws[n + 1].hub.log, ws[n].sessions[i], ws[n + 1].sessions[Where(steps[n], i)],
                      Earned(ws[n], steps[n], i), Steady(ws[n], steps[n], i))
    ensures Accounted(ws, steps, n + 1, Where(steps[n], i), asked)
  {
    OldOnesStay(ws, steps, n, i, before);
    asked := before;
    if Earned(ws[n], steps[n], i) != [] {
      EarnedIsShort(ws[n], steps[n], i);
      NewOne(ws, steps, n, i);
      asked := before + [n];
    }
  }

  lemma {:induction false} RepliesSoFar(ws: seq<World>, steps: seq<Step>, n: nat, i: nat) returns (asked: seq<nat>)
    requires Linked(ws, steps) && ws[0].sessions == [] && n <= |steps| && i < |ws[n].sessions|
    ensures Accounted(ws, steps, n, i, asked)
  {
    asked := [];
    if n > 0 {
      var w, step := ws[n - 1], steps[n - 1];
      SessionCount(w, step);
      if step.Connect? && i == |w.sessions| {
        NewHasNone();
      } else {
        var j := Origin(w, step, i);
        asked := RepliesSoFar(ws, steps, n - 1, j);
        StepAnswers(w, step, j);
        asked := EarnedNext(ws, steps, n - 1, j, asked);
      }
    }
  }

  // ---- every Accepted stands for an update of its own ----

  lemma {:induction false} LogGrows(ws: seq<World>, steps: seq<Step>, k: nat, n: nat)
    requires Linked(ws, steps) && k <= n <= |steps|
    ensures ws[k].hub.log <= ws[n].hub.log
  {
    if k < n {
      LogGrows(ws, steps, k, n - 1);
      assert ws[n] == Next(ws[n - 1], steps[n - 1]);
      HubGrows(ws[n - 1], steps[n - 1]);
    }
  }

  /** The message is a publication with this request, and its data became the next update of the log. */
  ghost predicate Became(w: World, step: Step, log: seq<Event>, reply: Event) {
    && step.ReadReturned? && step.input.Publish? && reply == Accepted(step.input.request) && |w.hub.log| < |log|
    && var e := log[|w.hub.log|];
       e.Update? && e.revision == w.hub.revision + 1 && e.data == step.input.data && e.domain == Catalog
  }

  lemma AcceptedBecame(ws: seq<World>, steps: seq<Step>, n: nat, i: nat, a: nat, at: nat)
    requires Linked(ws, steps) && n <= |steps| && i < |ws[n].sessions| && AskedAt(ws, steps, n, i, a, at)
    requires Answers(ws[n].sessions[i])[a].Accepted?
    ensures Became(ws[at], steps[at], ws[n].hub.log, Answers(ws[n].sessions[i])[a])
    ensures |ws[at].hub.log| < |ws[at + 1].hub.log|
  {
    assert Enabled(ws[at], steps[at]) && ws[at + 1] == Next(ws[at], steps[at]);
    PublishedHub(ws[at], steps[at]);
    LogGrows(ws, steps, at + 1, n);
  }

  /** Later publications become later updates. */
  lemma AcceptedInOrder(ws: seq<World>, steps: seq<Step>, n: nat, i: nat, a: nat, at: nat, bt: nat)
    requires Linked(ws, steps) && n <= |steps| && i < |ws[n].sessions| && AskedAt(ws, steps, n, i, a, at)
    requires Answers(ws[n].sessions[i])[a].Accepted? && at < bt <= n
    ensures |ws[at].hub.log| < |ws[bt].hub.log|
  {
    AcceptedBecame(ws, steps, n, i, a, at);
    LogGrows(ws, steps, at + 1, bt);
  }

  // ---- the same, told of runs ----

  /** A run without its last step is a run, and the step leads from there. */
  lemma LastOfRun(config: Config, steps: seq<Step>)
    requires Run(config, steps) && steps != []
    ensures var front := steps[..|steps| - 1];
            && Run(config, front) && Invariant(After(config, front)) && Enabled(After(config, front), Last(steps))
            && After(config, steps) == Next(After(config, front), Last(steps))
  {
    StartIsSound(config);
  }

  /** The states are those the beginnings of the run lead to. */
  ghost predicate Trail(config: Config, steps: seq<Step>, ws: seq<World>) {
    && |ws| == |steps| + 1
    && forall k :: 0 <= k <= |steps| ==> Run(config, steps[..k]) && ws[k] == After(config, steps[..k])
  }

  lemma {:induction false} TrailOf(config: Config, steps: seq<Step>) returns (ws: seq<World>)
    requires Run(config, steps)
    ensures Trail(config, steps, ws) && Linked(ws, steps) && ws[0].sessions == []
    decreases |steps|
  {
    if steps == [] {
      ws := [After(config, [])];
      assert steps[..0] == [];
    } else {
      LastOfRun(config, steps);
      var before := TrailOf(config, steps[..|steps| - 1]);
      TrailEnd(config, steps[..|steps| - 1], before);
      LinkedTo(before, steps, After(config, steps));
      TrailSnoc(config, steps, before);
      ws := before + [After(config, steps)];
    }
  }

  lemma TrailEnd(config: Config, steps: seq<Step>, ws: seq<World>)
    requires Trail(config, steps, ws)
    ensures Run(config, steps) && Last(ws) == After(config, steps)
  {
    assert steps[..|steps|] == steps;
  }

  lemma LinkedTo(ws: seq<World>, steps: seq<Step>, w: World)
    requires steps != [] && Linked(ws, steps[..|steps| - 1])
    requires Invariant(Last(ws)) && Enabled(Last(ws), Last(steps)) && w == Next(Last(ws), Last(steps))
    ensures Linked(ws + [w], steps)
  {
    assert steps[..|steps| - 1] + [Last(steps)] == steps;
    LinkedSnoc(ws, steps[..|steps| - 1], Last(steps));
  }

  lemma LinkedSnoc(ws: seq<World>, steps: seq<Step>, step: Step)
    requires Linked(ws, steps) && Invariant(Last(ws)) && Enabled(Last(ws), step)
    ensures Linked(ws + [Next(Last(ws), step)], steps + [step])
  {
    var ws', steps' := ws + [Next(Last(ws), step)], steps + [step];
    forall k | 0 <= k < |steps'|
      ensures Invariant(ws'[k]) && Enabled(ws'[k], steps'[k]) && ws'[k + 1] == Next(ws'[k], steps'[k])
    {
      if k < |steps| {
        assert steps'[k] == steps[k];
      }
    }
  }

  lemma TrailSnoc(config: Config, steps: seq<Step>, ws: seq<World>)
    requires Run(config, steps) && steps != [] && Trail(config, steps[..|steps| - 1], ws)
    ensures Trail(config, steps, ws + [After(config, steps)])
  {
    var front, ws' := steps[..|steps| - 1], ws + [After(config, steps)];
    forall k | 0 <= k <= |steps|
      ensures Run(config, steps[..k]) && ws'[k] == After(config, steps[..k])
    {
      if k < |steps| {
        assert front[..k] == steps[..k];
      } else {
        assert steps[..k] == steps;
      }
    }
  }

  /** Reply a of the session at place i, at the end of the run, was earned by step `at` of the run. */
  ghost predicate EarnedAt(config: Config, steps: seq<Step>, i: nat, a: nat, at: nat)
    requires Run(config, steps) && i < |After(config, steps).sessions|
  {
    && at < |steps| && Run(config, steps[..at])
    && Behind(After(config, steps[..at]), steps[at], steps[at..], After(config, steps).sessions[i], i, a)
  }

  lemma EarnedInRun(config: Config, steps: seq<Step>, ws: seq<World>, i: nat, a: nat, at: nat)
    requires Run(config, steps) && Trail(config, steps, ws) && i < |After(config, steps).sessions|
    ensures ws[|steps|] == After(config, steps)
    ensures EarnedAt(config, steps, i, a, at) <==> AskedAt(ws, steps, |steps|, i, a, at)
  {
    assert steps[..|steps|] == steps;
    if at < |steps| {
      assert steps[at..|steps|] == steps[at..];
    }
  }

  /**
   * In every run every reply of every session was earned by a message of that very session, in the order
   * of the messages.
   */
  lemma EveryReplyIsEarned(config: Config, steps: seq<Step>, i: nat) returns (asked: seq<nat>)
    requires Run(config, steps) && i < |After(config, steps).sessions|
    ensures |asked| == |Answers(After(config, steps).sessions[i])| && Rising(asked)
    ensures forall a {:trigger asked[a]} :: 0 <= a < |asked| ==> EarnedAt(config, steps, i, a, asked[a])
  {
    var ws := TrailOf(config, steps);
    EarnedInRun(config, steps, ws, i, 0, 0);
    asked := RepliesSoFar(ws, steps, |steps|, i);
    forall a | 0 <= a < |asked|
      ensures EarnedAt(config, steps, i, a, asked[a])
    {
      EarnedInRun(config, steps, ws, i, a, asked[a]);
    }
  }

  /**
   * In every run each Accepted reply answers a publication of its own session, whose data became an update
   * of the log: the next one at that time.
   */
  lemma AcceptedMeansUpdate(config: Config, steps: seq<Step>, i: nat, a: nat, at: nat)
    requires Run(config, steps) && i < |After(config, steps).sessions| && EarnedAt(config, steps, i, a, at)
    requires Answers(After(config, steps).sessions[i])[a].Accepted?
    ensures Became(After(config, steps[..at]), steps[at], After(config, steps).hub.log,
                   Answers(After(config, steps).sessions[i])[a])
  {
    var ws := TrailOf(config, steps);
    EarnedInRun(config, steps, ws, i, a, at);
    AcceptedBecame(ws, steps, |steps|, i, a, at);
  }

  /**
   * One step stands behind one reply of one session only, and of two steps behind Accepted replies the
   * earlier has the earlier update; so no update stands for two Accepted replies, of one session or of two.
   */
  lemma UpdatesAreUnshared(config: Config, steps: seq<Step>, i: nat, a: nat, at: nat, j: nat, b: nat, bt: nat)
    requires Run(config, steps) && i < |After(config, steps).sessions| && j < |After(config, steps).sessions|
    requires EarnedAt(config, steps, i, a, at) && EarnedAt(config, steps, j, b, bt) && at <= bt
    ensures at == bt ==> i == j && a == b
    ensures at < bt && Answers(After(config, steps).sessions[i])[a].Accepted? ==>
              |After(config, steps[..at]).hub.log| < |After(config, steps[..bt]).hub.log|
  {
    var ws := TrailOf(config, steps);
    EarnedInRun(config, steps, ws, i, a, at);
    EarnedInRun(config, steps, ws, j, b, bt);
    if at < bt && Answers(After(config, steps).sessions[i])[a].Accepted? {
      AcceptedInOrder(ws, steps, |steps|, i, a, at, bt);
    }
  }

  /** A Rejected reply stands for nothing: the step of its message leaves the whole hub as it was. */
  lemma RejectedMeansNothing(config: Config, steps: seq<Step>, i: nat, a: nat, at: nat)
    requires Run(config, steps) && i < |After(config, steps).sessions| && EarnedAt(config, steps, i, a, at)
    requires Answers(After(config, steps).sessions[i])[a].Rejected?
    ensures Run(config, steps[..at + 1])
    ensures After(config, steps[..at + 1]).hub == After(config, steps[..at]).hub
    ensures steps[at].input.Publish? && steps[at].input.request == Answers(After(config, steps).sessions[i])[a].request
  {
    var ws := TrailOf(config, steps);
    assert ws[at + 1] == Next(ws[at], steps[at]);
    PublishedHub(ws[at], steps[at]);
  }

  // ---- the numbers of a Completed reply ----

  /** The event is the summary of the session at the time of the message. */
  ghost predicate Summarizes(w: World, step: Step, e: Event) {
    && step.ReadReturned? && step.input.Progress? && step.input.final && step.i < |w.sessions|
    && e == Completed(Summary(w.sessions[step.i], step.input.revision))
    && Stated(w.sessions[step.i].recorded, w.sessions[step.i].expired, e.report)
  }

  lemma CompletedSummarizes(w: World, step: Step, e: Event)
    requires Invariant(w) && step.ReadReturned? && step.i < |w.sessions| && e.Completed?
    requires ReplyTo(w.hub, w.sessions[step.i], step.input) == [e]
    ensures Summarizes(w, step, e)
  {
    assert Settled(w.hub, w.sessions[step.i]);
    SummaryIsStated(w.sessions[step.i], step.input.revision);
  }

  /**
   * In every run every Completed event a session has sent or will send is the summary of that very session
   * in the state in which it asked: the number of its samples and expired reports of that time, and the
   * nearest-rank percentiles of these samples.
   */
  lemma ReportsAreTrue(config: Config, steps: seq<Step>, i: nat, e: Event) returns (a: nat, at: nat)
    requires Run(config, steps) && i < |After(config, steps).sessions|
    requires e in Stream(After(config, steps).sessions[i]) && e.Completed?
    ensures EarnedAt(config, steps, i, a, at) && Answers(After(config, steps).sessions[i])[a] == e
    ensures Summarizes(After(config, steps[..at]), steps[at], e)
  {
    var asked := EveryReplyIsEarned(config, steps, i);
    OnlyHas(Stream(After(config, steps).sessions[i]), e);
    a :| 0 <= a < |asked| && Answers(After(config, steps).sessions[i])[a] == e;
    at := asked[a];
    RunIsSound(config, steps[..at]);
    CompletedSummarizes(After(config, steps[..at]), steps[at], e);
  }
}
