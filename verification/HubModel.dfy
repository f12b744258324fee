/**
 * The hub and all its sessions as one transition system.  Every handler runs under the hub's
 * lock, so a step is one whole handler: a transport callback of one session, one action of the
 * producer, a new stream, or the shutdown.
 */
module HubModel {
  import opened Common
  import opened PushTypes
  import opened Reactor
  import opened SessionModel
  import Histogram
  import Keys
  import Slots

  /** Where the producer thread is. */
  datatype Phase = Waiting | Running | Stopped

  datatype Hub = Hub(
    config: Config, values: Table, log: seq<Event>, revision: nat,
    schedule: seq<int>,      // planned time of each revision
    joined: nat, finished: bool, stop: bool, phase: Phase)

  datatype World = World(hub: Hub, sessions: seq<Session>)

  function Start(config: Config): World
    requires config.Checked()
  {
    World(Hub(config, Keys.Initial(config), [], 0, [], 0, false, false, Waiting), [])
  }

  // ---- steps ----

  function With(w: World, i: nat, s: Session): World
    requires i < |w.sessions|
  {
    w.(sessions := w.sessions[i := s])
  }

  function PumpAll(log: seq<Event>, ss: seq<Session>): (r: seq<Session>)
    ensures |r| == |ss|
  {
    seq(|ss|, i requires 0 <= i < |ss| => Pump(log, ss[i]))
  }

  /** Append an event to the ring and pump every session. */
  function Announce(w: World, e: Event): World {
    var log := w.hub.log + [e];
    World(w.hub.(log := log), PumpAll(log, w.sessions))
  }

  /** The hub's record of a new update, before it is announced. */
  function Commit(h: Hub, domain: Domain, data: Bytes, scheduled: int): Hub
    requires h.config.Checked()
  {
    var name := Keys.Key(h.config, domain, h.revision + 1, true);
    h.(revision := h.revision + 1, values := h.values[name := (h.revision + 1, data)],
       schedule := h.schedule + [scheduled])
  }

  function UpdateEvent(h: Hub, domain: Domain, data: Bytes): Event
    requires h.config.Checked()
  {
    Update(h.revision + 1, Keys.Key(h.config, domain, h.revision + 1, true), data, domain)
  }

  /** A new update, refused once the producer has finished. */
  function Apply(w: World, domain: Domain, data: Bytes, scheduled: int): World
    requires w.hub.config.Checked()
  {
    if w.hub.finished then w
    else Announce(w.(hub := Commit(w.hub, domain, data, scheduled)), UpdateEvent(w.hub, domain, data))
  }

  /**
   * Histogram bucket of a delay in nanoseconds: whole microseconds in steps of 100, clamped to the
   * table.  A negative delay rounds toward zero and clamps to the first bucket.
   */
  function Bucket(delay: int): (b: nat)
    ensures b < BUCKETS
  {
    if delay < 0 then 0 else if delay / 1000 / 100 > BUCKETS - 1 then BUCKETS - 1 else delay / 1000 / 100
  }

  /** A bucket spans 100 microseconds; only the last one has no upper edge, and only the first takes negative delays. */
  lemma BucketBounds(delay: int)
    ensures Bucket(delay) > 0 ==> Bucket(delay) * 100_000 <= delay
    ensures Bucket(delay) < BUCKETS - 1 ==> delay < (Bucket(delay) + 1) * 100_000
    ensures delay >= 0 ==> Bucket(delay) * 100_000 <= delay
  {
    if delay >= 0 {
      var micros := delay / 1000;
      assert micros * 1000 <= delay < (micros + 1) * 1000;
      assert micros / 100 * 100 <= micros < (micros / 100 + 1) * 100;
    }
  }

  /** The bucket of a report, or nothing when its stamp is gone. */
  function Sample(h: Hub, revision: nat, now: int): (bucket: Option<nat>)
    requires 0 < revision <= |h.schedule|
    ensures bucket.Some? ==> bucket.value < BUCKETS
  {
    if Live(h, revision) then Some(Bucket(now - h.schedule[revision - 1])) else None
  }

  /** The stamp of a revision has not been overwritten. */
  predicate Live(h: Hub, revision: nat) {
    Slots.Holder(h.revision, STAMPS, revision % STAMPS) == revision
  }

  /** A progress report that is not final: a sample while its stamp is live, else expired. */
  function Observe(h: Hub, s: Session, revision: nat, now: int): Session
    requires 0 < revision <= h.revision == |h.schedule| && |s.histogram| == BUCKETS
  {
    Note(s, revision, Sample(h, revision, now))
  }

  function Summary(s: Session, revision: nat): Report {
    Report(revision, s.samples, s.expired,
           Histogram.Percentile(s.histogram, s.samples, 50),
           Histogram.Percentile(s.histogram, s.samples, 95),
           Histogram.Percentile(s.histogram, s.samples, 99))
  }

  /** A session that receives everything published from now on. */
  function Enrolled(h: Hub, s: Session): Session {
    s.(joined := true, cursor := |h.log| + 1, joinPoint := |h.log|, joinTable := h.values)
  }

  /** The first message of a session must be a join, and there must be room for it. */
  function Admit(w: World, i: nat, input: Control): World
    requires i < |w.sessions|
  {
    var h, s := w.hub, w.sessions[i];
    if !input.Join? || !input.accept || h.joined >= h.config.fanout then
      With(w, i, Fail(s, "join required or recipient limit"))
    else
      With(w.(hub := h.(joined := h.joined + 1)), i, Enrolled(h, s))
  }

  function Forward(w: World, i: nat, request: nat, data: Bytes, now: int): World
    requires w.hub.config.Checked() && i < |w.sessions|
  {
    if request == 0 || |data| > 1024 then With(w, i, Fail(w.sessions[i], "invalid publish"))
    else
      var w' := Apply(w, Catalog, data, now);
      With(w', i, Reply(w'.sessions[i], if w.hub.finished then Rejected(request) else Accepted(request)))
  }

  function Advance(h: Hub, s: Session, revision: nat, final: bool, now: int): Session
    requires h.revision == |h.schedule| && |s.histogram| == BUCKETS
  {
    if final then
      if s.drained != Some(revision) then Fail(s, "invalid final progress")
      else Reply(s, Completed(Summary(s, revision)))
    else if revision <= s.lastProgress || revision > h.revision then Fail(s, "invalid progress revision")
    else Observe(h, s, revision, now)
  }

  /** Handling of one control message by session i. */
  function Handle(w: World, i: nat, input: Control, now: int): World
    requires w.hub.config.Checked() && i < |w.sessions|
    requires w.hub.revision == |w.hub.schedule| && |w.sessions[i].histogram| == BUCKETS
  {
    var s := w.sessions[i];
    if !s.joined then Admit(w, i, input)
    else match input
      case Ping(n) => With(w, i, Reply(s, Pong(n)))
      case Publish(request, data) => Forward(w, i, request, data, now)
      case Progress(revision, final) => With(w, i, Advance(w.hub, s, revision, final, now))
      case Join(_) => With(w, i, Fail(s, "invalid control"))
      case Unset => With(w, i, Fail(s, "invalid control"))
  }

  function ReadCompleted(w: World, i: nat, ok: bool, input: Control, now: int): World
    requires w.hub.config.Checked() && i < |w.sessions| && w.sessions[i].wire.readsOut > 0
    requires w.hub.revision == |w.hub.schedule| && |w.sessions[i].histogram| == BUCKETS
  {
    var s := w.sessions[i];
    if !ok then
      With(w, i, Fail(s.(reading := false, wire := ReadDone(s.wire)), "control stream closed"))
    else
      var handled := Handle(With(w, i, Receive(s)), i, input, now);
      With(handled, i, Pump(handled.hub.log, Read(Release(handled.sessions[i]))))
  }

  function Halt(w: World): World {
    World(w.hub.(stop := true),
          seq(|w.sessions|, i requires 0 <= i < |w.sessions| => Fail(w.sessions[i], "server stopping")))
  }

  datatype Step =
    | Connect
    | MetadataSent(i: nat, ok: bool)
    | ReadReturned(i: nat, ok: bool, input: Control, now: int)
    | WriteReturned(i: nat, ok: bool)
    | Cancelled(i: nat)
    | Done(i: nat)
    | Begin
    | GiveUp
    | Produce(domain: Domain, data: Bytes, scheduled: int)
    | Piece(data: Bytes)
    | Drain
    | Shutdown

  /** What the transport and the producer may do next. */
  predicate Enabled(w: World, step: Step) {
    match step
    case Connect => true
    case MetadataSent(i, _) => i < |w.sessions| && !w.sessions[i].wire.metadata
    case ReadReturned(i, _, _, _) => i < |w.sessions| && w.sessions[i].wire.readsOut > 0
    case WriteReturned(i, _) => i < |w.sessions| && w.sessions[i].wire.writeOut.Some?
    case Cancelled(i) => i < |w.sessions|
    case Done(i) => i < |w.sessions| && w.sessions[i].wire.finishes > 0
    case Begin => w.hub.phase == Waiting && w.hub.joined == w.hub.config.fanout && !w.hub.stop
    case GiveUp => w.hub.phase == Waiting
    case Produce(_, _, _) => w.hub.phase == Running && !w.hub.stop
    case Piece(_) => w.hub.phase == Running
    case Drain => w.hub.phase == Running
    case Shutdown => true
  }

  function Next(w: World, step: Step): World
    requires Invariant(w) && Enabled(w, step)
  {
    match step
    case Connect => w.(sessions := w.sessions + [Open()])
    case MetadataSent(i, ok) => With(w, i, SendMetadataDone(w.hub.log, w.sessions[i], ok))
    case ReadReturned(i, ok, input, now) => ReadCompleted(w, i, ok, input, now)
    case WriteReturned(i, ok) => With(w, i, WriteCompleted(w.hub.log, w.sessions[i], ok))
    case Cancelled(i) => With(w, i, Fail(w.sessions[i], "session cancelled"))
    case Done(i) => w.(sessions := w.sessions[..i] + w.sessions[i + 1..])
    case Begin => Announce(w.(hub := w.hub.(phase := Running)), Ready)
    case GiveUp => w.(hub := w.hub.(phase := Stopped))
    case Produce(domain, data, scheduled) => Apply(w, domain, data, scheduled)
    case Piece(data) => Announce(w, Snapshot(data))
    case Drain => Announce(w.(hub := w.hub.(phase := Stopped, finished := true)), Drained(w.hub.revision))
    case Shutdown => Halt(w)
  }

  // ---- the invariant ----

  ghost predicate HubInv(h: Hub) {
    && h.config.Checked()
    && Published(h.log)
    && h.finished == (h.log != [] && Last(h.log).Drained?)
    && (h.finished ==> Last(h.log) == Drained(h.revision) && h.phase == Stopped)
    && h.values == Replay(Keys.Initial(h.config), h.log)
    && h.values.Keys == Keys.Initial(h.config).Keys
    && Updates(h.log) == h.revision == |h.schedule|
    && Numbered(h.log)
    && h.joined <= h.config.fanout
  }

  /** A session agrees with the hub; its join table is the hub's table at its join point. */
  ghost predicate InStep(h: Hub, s: Session) {
    && h.config.Checked()
    && Core(h.log, s)
    && (s.joined ==> s.joinTable == Replay(Keys.Initial(h.config), h.log[..s.joinPoint]))
    && s.lastProgress <= h.revision
  }

  ghost predicate Settled(h: Hub, s: Session) {
    InStep(h, s) && Quiet(h.log, s)
  }

  ghost predicate Invariant(w: World) {
    && HubInv(w.hub)
    && forall i :: 0 <= i < |w.sessions| ==> Settled(w.hub, w.sessions[i])
  }

  /** Inside the handler of session i: everyone else is at rest. */
  ghost predicate Inside(w: World, i: nat) {
    && HubInv(w.hub) && i < |w.sessions|
    && (forall j :: 0 <= j < |w.sessions| && j != i ==> Settled(w.hub, w.sessions[j]))
    && InStep(w.hub, w.sessions[i]) && w.sessions[i].processing
  }

  // ---- proofs ----

  /** A hub that has not finished may append any broadcast but a second Drained. */
  lemma AnnounceHub(h: Hub, e: Event)
    requires HubInv(h) && !h.finished && e.Broadcast?() && !e.Update? && !e.Drained?
    ensures HubInv(h.(log := h.log + [e]))
  {
    var log := h.log + [e];
    ReplayStep(Keys.Initial(h.config), h.log, e);
    NumberedGrows(h.log, e);
  }

  lemma NumberedGrows(log: seq<Event>, e: Event)
    requires Numbered(log) && (e.Update? ==> e.revision == Updates(log) + 1)
    ensures Numbered(log + [e])
    ensures Updates(log + [e]) == Updates(log) + (if e.Update? then 1 else 0)
  {
    var log' := log + [e];
    assert log'[..|log|] == log;
    forall i | 0 <= i < |log'| && log'[i].Update?
      ensures log'[i].revision == Updates(log'[..i + 1])
    {
      if i < |log| {
        assert log'[..i + 1] == log[..i + 1];
      } else {
        assert log'[..i + 1] == log';
      }
    }
  }

  lemma DrainHub(h: Hub)
    requires HubInv(h) && !h.finished
    ensures HubInv(h.(log := h.log + [Drained(h.revision)], finished := true, phase := Stopped))
  {
    ReplayStep(Keys.Initial(h.config), h.log, Drained(h.revision));
    NumberedGrows(h.log, Drained(h.revision));
  }

  lemma UpdateHub(h: Hub, domain: Domain, data: Bytes, scheduled: int)
    requires HubInv(h) && !h.finished
    ensures UpdateEvent(h, domain, data).key in h.values
    ensures var e := UpdateEvent(h, domain, data);
            HubInv(Commit(h, domain, data, scheduled).(log := h.log + [e]))
  {
    Keys.KeyExists(h.config, domain, h.revision + 1);
    CommitHub(h, UpdateEvent(h, domain, data), scheduled);
  }

  lemma CommitHub(h: Hub, e: Event, scheduled: int)
    requires HubInv(h) && !h.finished && e.Update? && e.revision == h.revision + 1 && e.key in h.values
    ensures HubInv(h.(revision := e.revision, values := h.values[e.key := (e.revision, e.data)],
                      schedule := h.schedule + [scheduled], log := h.log + [e]))
  {
    ReplayStep(Keys.Initial(h.config), h.log, e);
    NumberedGrows(h.log, e);
  }

  /** An unpumped session follows a hub that appends one event. */
  lemma FollowOne(h: Hub, h': Hub, e: Event, s: Session)
    requires InStep(h, s) && (h.log == [] || !Last(h.log).Drained?)
    requires h'.log == h.log + [e] && h'.config == h.config && h'.revision >= h.revision
    ensures InStep(h', s)
  {
    PublishKeeps(h.log, e, s);
    if s.joined {
      assert h'.log[..s.joinPoint] == h.log[..s.joinPoint];
    }
  }

  /** Pump touches neither the join record nor the progress mark. */
  lemma PumpFrame(log: seq<Event>, s: Session)
    ensures var t := Pump(log, s);
            && t.joined == s.joined && t.joinPoint == s.joinPoint && t.joinTable == s.joinTable
            && t.lastProgress == s.lastProgress && t.histogram == s.histogram
            && t.recorded == s.recorded && |t.controls| <= |s.controls|
  {
    FillFrame(log, s);
    FillControls(log, s);
  }

  lemma {:induction false} FillControls(log: seq<Event>, s: Session)
    ensures |Fill(log, s).0.controls| <= |s.controls|
    decreases QUEUE - |s.queue|
  {
    if CanTake(log, s) {
      FillControls(log, TakeOne(log, s));
    }
  }

  lemma PumpInStep(h: Hub, s: Session)
    requires InStep(h, s) && Published(h.log)
    ensures InStep(h, Pump(h.log, s)) && Pump(h.log, s).processing == s.processing
    ensures !s.processing ==> Settled(h, Pump(h.log, s))
  {
    PumpKeeps(h.log, s);
    PumpFrame(h.log, s);
  }

  /** One session through an announcement. */
  lemma AnnounceOne(h: Hub, h': Hub, e: Event, s: Session)
    requires InStep(h, s) && HubInv(h') && (h.log == [] || !Last(h.log).Drained?)
    requires h'.log == h.log + [e] && h'.config == h.config && h'.revision >= h.revision
    ensures InStep(h', Pump(h'.log, s)) && Pump(h'.log, s).processing == s.processing
    ensures !s.processing ==> Settled(h', Pump(h'.log, s))
  {
    FollowOne(h, h', e, s);
    PumpInStep(h', s);
  }

  /** The whole world through an announcement made outside any session handler. */
  lemma AnnounceAll(w: World, h': Hub, e: Event)
    requires Invariant(w) && !w.hub.finished && HubInv(h')
    requires h'.log == w.hub.log + [e] && h'.config == w.hub.config && h'.revision >= w.hub.revision
    ensures Invariant(World(h', PumpAll(h'.log, w.sessions)))
  {
    forall i | 0 <= i < |w.sessions|
      ensures Settled(h', Pump(h'.log, w.sessions[i]))
    {
      AnnounceOne(w.hub, h', e, w.sessions[i]);
    }
  }

  /** An update made from inside the handler of session i, which is itself pumped on the way. */
  lemma ApplyInside(w: World, i: nat, data: Bytes, now: int)
    requires Inside(w, i)
    ensures Inside(Apply(w, Catalog, data, now), i)
    ensures Apply(w, Catalog, data, now).sessions[i].joined == w.sessions[i].joined
    ensures |Apply(w, Catalog, data, now).sessions[i].controls| <= |w.sessions[i].controls|
  {
    if !w.hub.finished {
      var e := UpdateEvent(w.hub, Catalog, data);
      var h' := Commit(w.hub, Catalog, data, now).(log := w.hub.log + [e]);
      UpdateHub(w.hub, Catalog, data, now);
      var w' := Apply(w, Catalog, data, now);
      assert w'.hub == h';
      forall j | 0 <= j < |w.sessions|
        ensures InStep(h', w'.sessions[j]) && (j != i ==> Settled(h', w'.sessions[j]))
        ensures w'.sessions[j].processing == w.sessions[j].processing
      {
        assert InStep(w.hub, w.sessions[j]);
        AnnounceOne(w.hub, h', e, w.sessions[j]);
      }
      PumpFrame(h'.log, w.sessions[i]);
    }
  }

  /** A reply other than Completed joins the end of the stream. */
  lemma ReplyInStep(h: Hub, s: Session, e: Event)
    requires InStep(h, s) && s.processing && !e.Broadcast?() && !e.Completed?
    ensures InStep(h, Release(Reply(s, e))) && !Release(Reply(s, e)).processing
  {
    ReplyKeeps(h.log, s, e);
  }

  lemma CompletedInStep(h: Hub, s: Session, report: Report)
    requires InStep(h, s) && s.processing && s.drained == Some(report.revision)
    ensures InStep(h, Release(Reply(s, Completed(report)))) && !Release(Reply(s, Completed(report))).processing
  {
    CompletedKeeps(h.log, s, report);
  }

  lemma NoteInStep(h: Hub, s: Session, revision: nat, bucket: Option<nat>)
    requires InStep(h, s) && s.processing && revision <= h.revision
    requires bucket.Some? ==> bucket.value < BUCKETS
    ensures InStep(h, Release(Note(s, revision, bucket))) && !Release(Note(s, revision, bucket)).processing
  {
    NoteKeeps(h.log, s, revision, bucket);
  }

  lemma ObserveInStep(h: Hub, s: Session, revision: nat, now: int)
    requires HubInv(h) && InStep(h, s) && s.processing && 0 < revision <= h.revision
    ensures InStep(h, Release(Observe(h, s, revision, now))) && !Release(Observe(h, s, revision, now)).processing
  {
    NoteInStep(h, s, revision, Sample(h, revision, now));
  }

  lemma JoinInStep(h: Hub, s: Session)
    requires HubInv(h) && InStep(h, s) && s.processing && !s.joined
    ensures InStep(h, Release(Enrolled(h, s)))
  {
    var t := Release(Enrolled(h, s));
    assert Stream(t) == Stream(s);
    assert h.log[..|h.log|] == h.log;
  }

  lemma FailInStep(h: Hub, s: Session, reason: string)
    requires InStep(h, s)
    ensures InStep(h, Fail(s, reason)) && Fail(s, reason).processing == s.processing
    ensures !s.processing ==> Settled(h, Fail(s, reason))
  {
    FailKeeps(h.log, s, reason);
  }

  lemma ReleaseInStep(h: Hub, s: Session)
    requires InStep(h, s) && s.processing
    ensures InStep(h, Release(s)) && !Release(s).processing
  {
    ReleaseKeeps(h.log, s);
  }

  ghost predicate Handled(w: World, i: nat) {
    && HubInv(w.hub) && i < |w.sessions|
    && (forall j :: 0 <= j < |w.sessions| && j != i ==> Settled(w.hub, w.sessions[j]))
    && InStep(w.hub, Release(w.sessions[i])) && !Release(w.sessions[i]).processing
  }

  lemma ReplaceOne(w: World, i: nat, s: Session)
    requires Inside(w, i) && InStep(w.hub, Release(s)) && !Release(s).processing
    ensures Handled(With(w, i, s), i)
  {
  }

  lemma SettledAfterJoin(h: Hub, s: Session, n: nat)
    requires Settled(h, s)
    ensures Settled(h.(joined := n), s)
  {
  }

  lemma CountJoin(w: World, i: nat)
    requires Inside(w, i) && w.hub.joined < w.hub.config.fanout
    ensures Inside(w.(hub := w.hub.(joined := w.hub.joined + 1)), i)
  {
    var h := w.hub.(joined := w.hub.joined + 1);
    forall j | 0 <= j < |w.sessions| && j != i
      ensures Settled(h, w.sessions[j])
    {
      SettledAfterJoin(w.hub, w.sessions[j], h.joined);
    }
  }

  lemma InStepAfterJoin(h: Hub, s: Session, n: nat)
    requires InStep(h, s)
    ensures InStep(h.(joined := n), s)
  {
  }

  lemma JoinKeeps(w: World, i: nat)
    requires Inside(w, i) && !w.sessions[i].joined && w.hub.joined < w.hub.config.fanout
    ensures Handled(With(w.(hub := w.hub.(joined := w.hub.joined + 1)), i, Enrolled(w.hub, w.sessions[i])), i)
  {
    JoinInStep(w.hub, w.sessions[i]);
    InStepAfterJoin(w.hub, Release(Enrolled(w.hub, w.sessions[i])), w.hub.joined + 1);
    CountJoin(w, i);
    ReplaceOne(w.(hub := w.hub.(joined := w.hub.joined + 1)), i, Enrolled(w.hub, w.sessions[i]));
  }

  lemma AdmitKeeps(w: World, i: nat, input: Control)
    requires Inside(w, i) && !w.sessions[i].joined
    ensures Handled(Admit(w, i, input), i)
  {
    if !input.Join? || !input.accept || w.hub.joined >= w.hub.config.fanout {
      RefuseKeeps(w, i, "join required or recipient limit");
    } else {
      JoinKeeps(w, i);
    }
  }

  lemma PublishHandled(w: World, i: nat, request: nat, data: Bytes, now: int)
    requires Inside(w, i) && w.sessions[i].joined
    ensures Handled(Forward(w, i, request, data, now), i)
  {
    if request == 0 || |data| > 1024 {
      RefuseKeeps(w, i, "invalid publish");
    } else {
      var w' := Apply(w, Catalog, data, now);
      var e := if w.hub.finished then Rejected(request) else Accepted(request);
      ApplyInside(w, i, data, now);
      ReplyInStep(w'.hub, w'.sessions[i], e);
      ReplaceOne(w', i, Reply(w'.sessions[i], e));
    }
  }

  lemma ProgressHandled(w: World, i: nat, revision: nat, final: bool, now: int)
    requires Inside(w, i) && w.sessions[i].joined
    ensures Handled(With(w, i, Advance(w.hub, w.sessions[i], revision, final, now)), i)
  {
    var h, s := w.hub, w.sessions[i];
    if final {
      if s.drained != Some(revision) {
        RefuseKeeps(w, i, "invalid final progress");
      } else {
        CompletedInStep(h, s, Summary(s, revision));
        ReplaceOne(w, i, Reply(s, Completed(Summary(s, revision))));
      }
    } else if revision <= s.lastProgress || revision > h.revision {
      RefuseKeeps(w, i, "invalid progress revision");
    } else {
      ObserveInStep(h, s, revision, now);
      ReplaceOne(w, i, Observe(h, s, revision, now));
    }
  }

  /** Whatever the control message, the world is consistent once the message is released. */
  lemma HandleKeeps(w: World, i: nat, input: Control, now: int)
    requires Inside(w, i)
    ensures Handled(Handle(w, i, input, now), i)
  {
    if !w.sessions[i].joined {
      AdmitKeeps(w, i, input);
    } else {
      match input
      case Ping(n) =>
        ReplyInStep(w.hub, w.sessions[i], Pong(n));
        ReplaceOne(w, i, Reply(w.sessions[i], Pong(n)));
      case Publish(request, data) => PublishHandled(w, i, request, data, now);
      case Progress(revision, final) => ProgressHandled(w, i, revision, final, now);
      case Join(_) => RefuseKeeps(w, i, "invalid control");
      case Unset => RefuseKeeps(w, i, "invalid control");
    }
  }

  lemma RefuseKeeps(w: World, i: nat, reason: string)
    requires Inside(w, i)
    ensures Handled(With(w, i, Fail(w.sessions[i], reason)), i)
  {
    FailInStep(w.hub, w.sessions[i], reason);
    ReleaseInStep(w.hub, Fail(w.sessions[i], reason));
    ReplaceOne(w, i, Fail(w.sessions[i], reason));
  }

  lemma TakeOver(w: World, i: nat)
    requires Invariant(w) && i < |w.sessions| && w.sessions[i].wire.readsOut > 0
    ensures Inside(With(w, i, Receive(w.sessions[i])), i)
  {
    assert Settled(w.hub, w.sessions[i]);
    ReceiveKeeps(w.hub.log, w.sessions[i]);
  }

  lemma ResumeKeeps(w: World, i: nat)
    requires Handled(w, i)
    ensures Invariant(With(w, i, Pump(w.hub.log, Read(Release(w.sessions[i])))))
  {
    var t := Release(w.sessions[i]);
    ReadKeeps(w.hub.log, t);
    PumpInStep(w.hub, Read(t));
  }

  lemma PutBack(w: World, i: nat, s: Session)
    requires Invariant(w) && i < |w.sessions| && Settled(w.hub, s)
    ensures Invariant(With(w, i, s))
  {
  }

  lemma ReadFailedKeeps(h: Hub, s: Session)
    requires Settled(h, s) && s.wire.readsOut > 0
    ensures Settled(h, Fail(s.(reading := false, wire := ReadDone(s.wire)), "control stream closed"))
  {
    var t := s.(reading := false, wire := ReadDone(s.wire));
    assert Stream(t) == Stream(s);
    FailInStep(h, t, "control stream closed");
  }

  lemma ReadCompletedKeeps(w: World, i: nat, ok: bool, input: Control, now: int)
    requires Invariant(w) && i < |w.sessions| && w.sessions[i].wire.readsOut > 0
    ensures Invariant(ReadCompleted(w, i, ok, input, now))
  {
    assert Settled(w.hub, w.sessions[i]);
    if !ok {
      HangUpKeeps(w, i);
    } else {
      TakeOver(w, i);
      var taken := With(w, i, Receive(w.sessions[i]));
      HandleKeeps(taken, i, input, now);
      ResumeKeeps(Handle(taken, i, input, now), i);
    }
  }

  lemma HangUpKeeps(w: World, i: nat)
    requires Invariant(w) && i < |w.sessions| && w.sessions[i].wire.readsOut > 0
    ensures var s := w.sessions[i];
            Invariant(With(w, i, Fail(s.(reading := false, wire := ReadDone(s.wire)), "control stream closed")))
  {
    var s := w.sessions[i];
    assert Settled(w.hub, s);
    ReadFailedKeeps(w.hub, s);
    PutBack(w, i, Fail(s.(reading := false, wire := ReadDone(s.wire)), "control stream closed"));
  }

  lemma WriteCompletedFrame(log: seq<Event>, s: Session, ok: bool)
    requires s.queue != [] && s.wire.writeOut.Some?
    ensures var t := WriteCompleted(log, s, ok);
            && t.joined == s.joined && t.joinPoint == s.joinPoint && t.joinTable == s.joinTable
            && t.lastProgress == s.lastProgress
  {
    var popped := s.(writing := false, queue := s.queue[1..], wire := WriteDone(s.wire, ok));
    var checked := if ok then popped else Fail(popped, "event write failed");
    PumpFrame(log, if s.queue[0].Completed? && ok then checked.(closing := true) else checked);
  }

  lemma MetadataFrame(log: seq<Event>, s: Session, ok: bool)
    ensures var t := SendMetadataDone(log, s, ok);
            && t.joined == s.joined && t.joinPoint == s.joinPoint && t.joinTable == s.joinTable
            && t.lastProgress == s.lastProgress
  {
    var t := s.(metadata := true, wire := MetadataDone(s.wire));
    PumpFrame(log, if ok then t else Fail(t, "response metadata failed"));
  }

  lemma HaltKeeps(w: World)
    requires Invariant(w)
    ensures Invariant(Halt(w))
  {
    var w' := Halt(w);
    forall i | 0 <= i < |w.sessions|
      ensures Settled(w'.hub, w'.sessions[i])
    {
      FailInStep(w.hub, w.sessions[i], "server stopping");
    }
  }

  /** A producer action. */
  lemma ProducerKeeps(w: World, step: Step)
    requires Invariant(w) && Enabled(w, step)
    requires step.Begin? || step.GiveUp? || step.Produce? || step.Piece? || step.Drain?
    ensures Invariant(Next(w, step))
  {
    var h := w.hub;
    if h.phase == Running {
      assert !h.finished;
    }
    match step
    case Begin =>
      assert !h.finished;
      var h1 := h.(phase := Running);
      AnnounceHub(h1, Ready);
      AnnounceAll(w, h1.(log := h.log + [Ready]), Ready);
    case GiveUp =>
      forall i | 0 <= i < |w.sessions|
        ensures Settled(h.(phase := Stopped), w.sessions[i])
      {
        assert Settled(h, w.sessions[i]);
      }
    case Produce(domain, data, scheduled) =>
      var e := UpdateEvent(h, domain, data);
      UpdateHub(h, domain, data, scheduled);
      AnnounceAll(w, Commit(h, domain, data, scheduled).(log := h.log + [e]), e);
    case Piece(data) =>
      AnnounceHub(h, Snapshot(data));
      AnnounceAll(w, h.(log := h.log + [Snapshot(data)]), Snapshot(data));
    case Drain =>
      DrainHub(h);
      AnnounceAll(w, h.(log := h.log + [Drained(h.revision)], finished := true, phase := Stopped), Drained(h.revision));
  }

  /** Every step of every participant keeps the invariant. */
  lemma StepKeeps(w: World, step: Step)
    requires Invariant(w) && Enabled(w, step)
    ensures Invariant(Next(w, step))
  {
    match step
    case Connect => ConnectKeeps(w);
    case MetadataSent(i, ok) => MetadataSentKeeps(w, i, ok);
    case ReadReturned(i, ok, input, now) => ReadCompletedKeeps(w, i, ok, input, now);
    case WriteReturned(i, ok) => WriteReturnedKeeps(w, i, ok);
    case Cancelled(i) => CancelledKeeps(w, i);
    case Done(i) => DoneKeeps(w, i);
    case Shutdown => HaltKeeps(w);
    case _ => ProducerKeeps(w, step);
  }

  lemma ConnectKeeps(w: World)
    requires Invariant(w)
    ensures Invariant(w.(sessions := w.sessions + [Open()]))
  {
    var s := OpenSettled(w.hub);
    AddSession(w, s);
  }

  lemma AddSession(w: World, s: Session)
    requires Invariant(w) && Settled(w.hub, s)
    ensures Invariant(w.(sessions := w.sessions + [s]))
  {
  }

  lemma OpenSettled(h: Hub) returns (s: Session)
    requires h.config.Checked()
    ensures s == Open() && Settled(h, s)
  {
    s := Open();
    OpenIsSound(h.log);
  }

  lemma MetadataSentKeeps(w: World, i: nat, ok: bool)
    requires Invariant(w) && i < |w.sessions| && !w.sessions[i].wire.metadata
    ensures Invariant(With(w, i, SendMetadataDone(w.hub.log, w.sessions[i], ok)))
  {
    assert Settled(w.hub, w.sessions[i]);
    MetadataKeeps(w.hub.log, w.sessions[i], ok);
    MetadataFrame(w.hub.log, w.sessions[i], ok);
    PutBack(w, i, SendMetadataDone(w.hub.log, w.sessions[i], ok));
  }

  lemma WriteReturnedKeeps(w: World, i: nat, ok: bool)
    requires Invariant(w) && i < |w.sessions| && w.sessions[i].wire.writeOut.Some?
    ensures w.sessions[i].queue != []
    ensures Invariant(With(w, i, WriteCompleted(w.hub.log, w.sessions[i], ok)))
  {
    assert Settled(w.hub, w.sessions[i]);
    WriteKeeps(w.hub.log, w.sessions[i], ok);
    WriteCompletedFrame(w.hub.log, w.sessions[i], ok);
    PutBack(w, i, WriteCompleted(w.hub.log, w.sessions[i], ok));
  }

  lemma CancelledKeeps(w: World, i: nat)
    requires Invariant(w) && i < |w.sessions|
    ensures Invariant(With(w, i, Fail(w.sessions[i], "session cancelled")))
  {
    assert Settled(w.hub, w.sessions[i]);
    FailInStep(w.hub, w.sessions[i], "session cancelled");
    PutBack(w, i, Fail(w.sessions[i], "session cancelled"));
  }

  lemma DoneKeeps(w: World, i: nat)
    requires Invariant(w) && i < |w.sessions|
    ensures Invariant(w.(sessions := w.sessions[..i] + w.sessions[i + 1..]))
  {
    var w' := w.(sessions := w.sessions[..i] + w.sessions[i + 1..]);
    forall j | 0 <= j < |w'.sessions|
      ensures Settled(w'.hub, w'.sessions[j])
    {
      assert Settled(w.hub, w.sessions[if j < i then j else j + 1]);
    }
  }

  // ---- runs ----

  /** A run: each step is enabled in the state the earlier ones lead to. */
  ghost predicate Executable(w: World, steps: seq<Step>)
    requires Invariant(w)
    decreases |steps|, 0
  {
    steps == [] ||
    (Executable(w, steps[..|steps| - 1]) && Enabled(Execute(w, steps[..|steps| - 1]), Last(steps)))
  }

  ghost function Execute(w: World, steps: seq<Step>): (w': World)
    requires Invariant(w) && Executable(w, steps)
    ensures Invariant(w')
    decreases |steps|, 1
  {
    if steps == [] then w
    else
      var before := Execute(w, steps[..|steps| - 1]);
      StepKeeps(before, Last(steps));
      Next(before, Last(steps))
  }

  lemma StartIsSound(config: Config)
    requires config.Checked()
    ensures Invariant(Start(config))
  {
  }
}
