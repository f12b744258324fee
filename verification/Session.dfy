/**
 * One reactor session: its state, the steps its handlers are made of, and what every step keeps.
 * `log` is the list of events the hub has published so far; event number k is log[k - 1], and the
 * hub's shared ring keeps event k in slot k % RING.
 */
module SessionModel {
  import opened Common
  import opened PushTypes
  import opened Reactor
  import Slots
  import Histogram

  datatype Session = Session(
    joined: bool, reading: bool, processing: bool, writing: bool, metadata: bool,
    closing: bool, finishing: bool, status: Status,
    cursor: nat, lastProgress: nat, samples: nat, expired: nat,
    drained: Option<nat>, buffered: nat,
    queue: seq<Event>,       // queued writes; the first one is in flight while writing
    controls: seq<Event>,    // replies not yet queued
    histogram: seq<nat>,
    // History: what the stream saw, and what the session met when it joined.
    wire: Wire, joinPoint: nat, joinTable: Table, recorded: seq<nat>, reports: nat)

  const LAGGED := "receiver lagged; resynchronization required"

  function Open(): Session {
    Read(Session(false, false, false, false, false, false, false, Ok, 0, 0, 0, 0, None, 0,
                 [], [], seq(BUCKETS, _ => 0), IDLE, 0, map[], [], 0))
  }

  // ---- steps ----

  function Read(s: Session): Session {
    if !s.reading && !s.processing && !s.closing && |s.controls| < REPLIES then
      s.(reading := true, wire := StartRead(s.wire))
    else s
  }

  /** Copy an event into the next free write slot. */
  function Enqueue(s: Session, e: Event): Session {
    s.(queue := s.queue + [e], drained := if e.Drained? then Some(e.upTo) else s.drained)
  }

  /** The event in the ring slot of number k. */
  function RingEvent(log: seq<Event>, k: nat): (e: Event)
    requires 1 <= k <= |log|
  {
    Slots.HolderIsLive(|log|, RING, k);
    log[Slots.Holder(|log|, RING, k % RING) - 1]
  }

  /** There is a free write slot and something to put into it: replies first, then broadcasts. */
  predicate CanTake(log: seq<Event>, s: Session) {
    && |s.queue| < QUEUE
    && (s.controls != [] || (s.joined && 1 <= s.cursor <= |log| && |log| - s.cursor < RING))
  }

  function TakeOne(log: seq<Event>, s: Session): Session
    requires CanTake(log, s)
  {
    if s.controls != [] then Enqueue(s.(controls := s.controls[1..]), s.controls[0])
    else Enqueue(s.(cursor := s.cursor + 1), RingEvent(log, s.cursor))
  }

  /** The next thing to take is a broadcast that the ring no longer holds. */
  predicate Lags(log: seq<Event>, s: Session) {
    |s.queue| < QUEUE && s.controls == [] && s.joined && 1 <= s.cursor <= |log| && |log| - s.cursor >= RING
  }

  /** The filling loop; the flag says that the session lags. */
  function Fill(log: seq<Event>, s: Session): (Session, bool)
    decreases QUEUE - |s.queue|
  {
    if CanTake(log, s) then Fill(log, TakeOne(log, s)) else (s, Lags(log, s))
  }

  predicate Hinted(s: Session) {
    |s.queue| > 1 && s.queue[0].Update? && s.buffered < HINTS
  }

  function Launch(s: Session): Session {
    if s.queue != [] && !s.writing && s.metadata then
      s.(writing := true, buffered := if Hinted(s) then s.buffered + 1 else 0,
         wire := StartWrite(s.wire, s.queue[0], Hinted(s)))
    else s
  }

  /** The part of pump for a session that is closing. */
  function Settle(s: Session): Session {
    if !s.finishing && !s.writing && s.metadata then
      s.(finishing := true, wire := Finish(s.wire))
    else s
  }

  function Fail(s: Session, reason: string): Session {
    Settle(if s.closing then s else s.(closing := true, status := Exhausted(reason)))
  }

  function Pump(log: seq<Event>, s: Session): Session {
    if s.finishing then s
    else if s.closing then Settle(s)
    else
      var (filled, lagged) := Fill(log, s);
      if lagged then Fail(filled, LAGGED) else Read(Launch(filled))
  }

  function SendMetadataDone(log: seq<Event>, s: Session, ok: bool): Session {
    var t := s.(metadata := true, wire := MetadataDone(s.wire));
    Pump(log, if ok then t else Fail(t, "response metadata failed"))
  }

  function WriteCompleted(log: seq<Event>, s: Session, ok: bool): Session
    requires s.queue != [] && s.wire.writeOut.Some?
  {
    var completed := s.queue[0].Completed?;
    var popped := s.(writing := false, queue := s.queue[1..], wire := WriteDone(s.wire, ok));
    var checked := if ok then popped else Fail(popped, "event write failed");
    var t := if completed && ok then checked.(closing := true) else checked;
    Read(Pump(log, t))
  }

  function Reply(s: Session, e: Event): Session {
    s.(controls := s.controls + [e])
  }

  /** A read has come back. */
  function ReadOver(s: Session): Session
    requires s.wire.readsOut > 0
  {
    s.(reading := false, wire := ReadDone(s.wire))
  }

  /** The received message is taken over for the time of its handling. */
  function Receive(s: Session): Session
    requires s.wire.readsOut > 0
  {
    s.(reading := false, processing := true, wire := UseInput(ReadDone(s.wire)))
  }

  function Release(s: Session): Session {
    s.(processing := false, wire := ReleaseInput(s.wire))
  }

  /** A progress report becomes a sample in a bucket, or is counted as expired. */
  function Note(s: Session, revision: nat, bucket: Option<nat>): Session
    requires bucket.Some? ==> bucket.value < |s.histogram|
  {
    var t := s.(lastProgress := revision, reports := s.reports + 1);
    match bucket
    case None => t.(expired := s.expired + 1)
    case Some(b) =>
      t.(samples := s.samples + 1, histogram := s.histogram[b := s.histogram[b] + 1], recorded := s.recorded + [b])
  }

  // ---- what every step keeps ----

  /** Everything the session has accepted for sending, oldest first. */
  function Stream(s: Session): seq<Event> {
    s.wire.written + s.queue + s.controls
  }

  /** Bounds, and the session's flags agree with the stream's own account. */
  ghost predicate Shape(s: Session) {
    && |s.queue| <= QUEUE && |s.controls| <= REPLIES
    && (s.reading || s.processing ==> |s.controls| < REPLIES)
    && !(s.reading && s.processing)
    && s.wire.readsOut == (if s.reading then 1 else 0)
    && s.wire.inputBusy == s.processing
    && s.wire.metadata == s.metadata
    && (s.writing ==> s.metadata && s.queue != [] && s.wire.writeOut == Some(s.queue[0]))
    && (!s.writing ==> s.wire.writeOut == None)
    && s.wire.finishes == (if s.finishing then 1 else 0)
    && (s.finishing ==> s.closing && !s.writing && s.metadata)
    && s.buffered == s.wire.hintRun <= HINTS
    && !s.wire.broken
  }

  /** A buffered write is never the last of the queue. */
  ghost predicate Flushed(s: Session) {
    && (s.wire.lastHint && !s.closing ==> s.queue != [])
    && (s.wire.lastHint && s.writing ==> |s.queue| > 1)
    && (s.wire.lastHint ==> s.metadata)
  }

  /** The broadcasts taken are exactly the published ones from the join to the cursor. */
  ghost predicate Flow(log: seq<Event>, s: Session) {
    && (forall e <- s.controls :: !e.Broadcast?())
    && (if s.joined then
          && s.joinPoint < s.cursor <= |log| + 1
          && Broadcasts(Stream(s)) == log[s.joinPoint..s.cursor - 1]
        else Broadcasts(Stream(s)) == [])
  }

  /** The log has ended with the Drained event, and the session has taken all of it. */
  ghost predicate Caught(log: seq<Event>, s: Session) {
    && s.joined && s.joinPoint < |log| && s.cursor == |log| + 1
    && Last(log).Drained?
  }

  /** Drained is noted once everything published has been taken, and only then does Completed appear. */
  ghost predicate Finale(log: seq<Event>, s: Session) {
    && (s.drained.Some? <==> Caught(log, s))
    && (s.drained.Some? ==> Last(log) == Drained(s.drained.value))
    && forall j {:trigger Stream(s)[j]} :: 0 <= j < |Stream(s)| && Stream(s)[j].Completed? ==>
         && Caught(log, s)
         && Broadcasts(Stream(s)[..j]) == log[s.joinPoint..]
         && Stream(s)[j].report.revision == Last(log).upTo
  }

  /** A session without an error has delivered every write it made; only Completed closes it. */
  ghost predicate Outcome(s: Session) {
    && (!s.closing ==> s.status.Ok?)
    && (s.status.Ok? ==> s.wire.delivered == s.wire.written)
    && (s.closing && s.status.Ok? ==>
          !s.writing && s.wire.delivered != [] && Last(s.wire.delivered).Completed?)
  }

  ghost predicate Measured(s: Session) {
    && |s.histogram| == BUCKETS
    && Histogram.Tallies(s.histogram, s.recorded)
    && s.samples == |s.recorded|
    && s.reports == s.samples + s.expired
  }

  ghost predicate Core(log: seq<Event>, s: Session) {
    Shape(s) && Flushed(s) && Flow(log, s) && Finale(log, s) && Outcome(s) && Measured(s)
  }

  /** An open session has taken every published event, or has no free write slot. */
  ghost predicate Fed(log: seq<Event>, s: Session) {
    !s.closing && s.joined ==> |s.queue| == QUEUE || s.cursor == |log| + 1
  }

  /** No lost wake-up: what holds of a session whenever no handler is running. */
  ghost predicate Quiet(log: seq<Event>, s: Session) {
    && !s.processing
    && Fed(log, s)
    && (!s.closing && s.metadata && !s.writing ==>
          s.queue == [] && s.controls == [] && (s.joined ==> s.cursor == |log| + 1) && !s.wire.lastHint)
    && (!s.closing && !s.reading ==> |s.controls| == REPLIES && |s.queue| == QUEUE)
    && (s.closing && !s.finishing ==> s.writing || !s.metadata)
  }

  /** The log holds broadcasts only, and Drained only at its end. */
  ghost predicate Published(log: seq<Event>) {
    && (forall e <- log :: e.Broadcast?())
    && forall i {:trigger log[i]} :: 0 <= i < |log| - 1 ==> !log[i].Drained?
  }

  // ---- proofs ----

  lemma OpenIsSound(log: seq<Event>)
    ensures Core(log, Open()) && !Open().processing && Quiet(log, Open())
  {
    Histogram.TallyEmpty(BUCKETS);
  }

  lemma ReadKeeps(log: seq<Event>, s: Session)
    requires Core(log, s)
    ensures Core(log, Read(s))
  {
    assert Stream(Read(s)) == Stream(s);
  }

  lemma RingEventIsLive(log: seq<Event>, k: nat)
    requires 1 <= k <= |log| && |log| - k < RING
    ensures RingEvent(log, k) == log[k - 1]
  {
    Slots.HolderIsLive(|log|, RING, k);
  }

  /** The stream only grows at its end, so old prefixes keep their broadcasts. */
  lemma StreamGrows(log: seq<Event>, s: Session, s': Session, e: Event)
    requires Finale(log, s) && Stream(s') == Stream(s) + [e] && !e.Completed?
    requires s'.joined == s.joined && s'.joinPoint == s.joinPoint
    requires Caught(log, s) ==> Caught(log, s')
    requires s'.drained.Some? <==> Caught(log, s')
    requires s'.drained.Some? ==> Last(log) == Drained(s'.drained.value)
    ensures Finale(log, s')
  {
    forall j | 0 <= j < |Stream(s')| && Stream(s')[j].Completed?
      ensures Caught(log, s') && Broadcasts(Stream(s')[..j]) == log[s'.joinPoint..]
      ensures Stream(s')[j].report.revision == Last(log).upTo
    {
      assert Stream(s)[j].Completed?;
      assert Stream(s')[..j] == Stream(s)[..j];
    }
  }

  /** A control reply moves from the reply list to the write queue. */
  lemma TakeReply(log: seq<Event>, s: Session)
    requires Core(log, s) && s.controls != [] && |s.queue| < QUEUE && !s.closing
    ensures Core(log, Enqueue(s.(controls := s.controls[1..]), s.controls[0]))
  {
    var t := Enqueue(s.(controls := s.controls[1..]), s.controls[0]);
    assert s.controls[0] in s.controls;
    assert t.drained == s.drained;
    assert Stream(t) == Stream(s);
  }

  /** The next broadcast moves from the ring to the write queue. */
  lemma TakeBroadcast(log: seq<Event>, s: Session)
    requires Core(log, s) && Published(log) && s.controls == [] && |s.queue| < QUEUE && !s.closing
    requires s.joined && s.cursor <= |log| && |log| - s.cursor < RING
    ensures Core(log, Enqueue(s.(cursor := s.cursor + 1), RingEvent(log, s.cursor)))
  {
    var e := RingEvent(log, s.cursor);
    var t := Enqueue(s.(cursor := s.cursor + 1), e);
    RingEventIsLive(log, s.cursor);
    assert e == log[s.cursor - 1] && e in log;
    assert Stream(t) == Stream(s) + [e];
    assert Stream(t)[..|Stream(s)|] == Stream(s);
    assert log[s.joinPoint..s.cursor] == log[s.joinPoint..s.cursor - 1] + [e];
    assert !Caught(log, s);
    StreamGrows(log, s, t, e);
  }

  lemma TakeOneKeeps(log: seq<Event>, s: Session)
    requires Core(log, s) && Published(log) && !s.closing && CanTake(log, s)
    ensures Core(log, TakeOne(log, s)) && !TakeOne(log, s).closing
  {
    if s.controls != [] {
      TakeReply(log, s);
    } else {
      TakeBroadcast(log, s);
    }
  }

  lemma {:induction false} FillKeeps(log: seq<Event>, s: Session)
    requires Core(log, s) && Published(log) && !s.closing
    ensures Core(log, Fill(log, s).0)
    decreases QUEUE - |s.queue|
  {
    if CanTake(log, s) {
      TakeOneKeeps(log, s);
      FillKeeps(log, TakeOne(log, s));
    }
  }

  /** The fields the filling loop leaves alone. */
  ghost predicate SameOutside(s: Session, t: Session) {
    t == s.(queue := t.queue, controls := t.controls, cursor := t.cursor, drained := t.drained)
  }

  lemma {:induction false} FillFrame(log: seq<Event>, s: Session)
    ensures SameOutside(s, Fill(log, s).0)
    decreases QUEUE - |s.queue|
  {
    if CanTake(log, s) {
      assert SameOutside(s, TakeOne(log, s));
      FillFrame(log, TakeOne(log, s));
    }
  }

  /** Why the filling loop stops. */
  lemma {:induction false} FillStops(log: seq<Event>, s: Session)
    ensures !CanTake(log, Fill(log, s).0) && Fill(log, s).1 == Lags(log, Fill(log, s).0)
    decreases QUEUE - |s.queue|
  {
    if CanTake(log, s) {
      FillStops(log, TakeOne(log, s));
    }
  }

  /** How many waiting replies the free places of the queue hold. */
  function RepliesTaken(s: Session): nat {
    if |s.queue| + |s.controls| <= QUEUE then |s.controls| else if |s.queue| < QUEUE then QUEUE - |s.queue| else 0
  }

  /** How many broadcasts the places left by the replies hold, as far as the ring still has them. */
  function EventsTaken(log: seq<Event>, s: Session): nat {
    var room := QUEUE - |s.queue| - RepliesTaken(s);
    if !s.joined || s.cursor < 1 || s.cursor > |log| || |log| - s.cursor >= RING || room < 0 then 0
    else if room < |log| + 1 - s.cursor then room
    else |log| + 1 - s.cursor
  }

  /** The next m events of the log. */
  function Following(log: seq<Event>, cursor: nat, m: nat): seq<Event> {
    if cursor >= 1 && cursor - 1 + m <= |log| then log[cursor - 1..cursor - 1 + m] else []
  }

  /** First the waiting replies, then the next broadcasts of the log, as many as there are places. */
  ghost predicate Takes(log: seq<Event>, s: Session, t: Session) {
    && t.controls == s.controls[RepliesTaken(s)..] && t.cursor == s.cursor + EventsTaken(log, s)
    && t.queue == s.queue + (s.controls[..RepliesTaken(s)] + Following(log, s.cursor, EventsTaken(log, s)))
  }

  /** The filling loop in one formula. */
  lemma {:induction false} FillTakes(log: seq<Event>, s: Session)
    requires |s.queue| <= QUEUE
    ensures Takes(log, s, Fill(log, s).0)
    decreases QUEUE - |s.queue|
  {
    if CanTake(log, s) {
      FillTakes(log, TakeOne(log, s));
      TakesOneMore(log, s, Fill(log, TakeOne(log, s)).0);
    } else {
      TakesNothing(log, s);
    }
  }

  lemma TakesOneMore(log: seq<Event>, s: Session, u: Session)
    requires CanTake(log, s) && Takes(log, TakeOne(log, s), u)
    ensures Takes(log, s, u)
  {
    if s.controls != [] {
      TakesReply(log, s, TakeOne(log, s), u);
    } else {
      RingEventIsLive(log, s.cursor);
      TakesEvent(log, s, TakeOne(log, s), u);
    }
  }

  lemma TakesNothing(log: seq<Event>, s: Session)
    requires |s.queue| <= QUEUE && !CanTake(log, s)
    ensures Takes(log, s, s)
  {
    assert RepliesTaken(s) == 0 && EventsTaken(log, s) == 0;
    assert s.controls[..0] + Following(log, s.cursor, 0) == [];
  }

  lemma Regroup<T>(a: seq<T>, x: T, b: seq<T>, c: seq<T>)
    ensures a + [x] + (b + c) == a + (([x] + b) + c)
  {
  }

  lemma TakesReply(log: seq<Event>, s: Session, t: Session, u: Session)
    requires |s.queue| < QUEUE && s.controls != [] && t.joined == s.joined && t.cursor == s.cursor
    requires t.queue == s.queue + [s.controls[0]] && t.controls == s.controls[1..] && Takes(log, t, u)
    ensures Takes(log, s, u)
  {
    var n, m := RepliesTaken(t), EventsTaken(log, t);
    assert RepliesTaken(s) == n + 1 && EventsTaken(log, s) == m;
    assert s.controls[..n + 1] == [s.controls[0]] + t.controls[..n];
    assert s.controls[n + 1..] == t.controls[n..];
    Regroup(s.queue, s.controls[0], t.controls[..n], Following(log, s.cursor, m));
  }

  lemma TakesEvent(log: seq<Event>, s: Session, t: Session, u: Session)
    requires |s.queue| < QUEUE && s.controls == [] && s.joined && 1 <= s.cursor <= |log| && |log| - s.cursor < RING
    requires t.joined && t.cursor == s.cursor + 1 && t.controls == []
    requires t.queue == s.queue + [log[s.cursor - 1]] && Takes(log, t, u)
    ensures Takes(log, s, u)
  {
    var m := EventsTaken(log, t);
    assert EventsTaken(log, s) == m + 1;
    assert Following(log, s.cursor, m + 1) == [log[s.cursor - 1]] + Following(log, t.cursor, m);
    Regroup(s.queue, log[s.cursor - 1], [], Following(log, t.cursor, m));
  }

  lemma LaunchKeeps(log: seq<Event>, s: Session)
    requires Core(log, s) && !s.closing
    ensures Core(log, Launch(s))
    ensures Launch(s).metadata && !Launch(s).writing ==> Launch(s).queue == []
  {
    assert Stream(Launch(s)) == Stream(s);
  }

  lemma SettleKeeps(log: seq<Event>, s: Session)
    requires Core(log, s) && s.closing
    ensures Core(log, Settle(s))
    ensures !Settle(s).finishing ==> Settle(s).writing || !Settle(s).metadata
  {
    assert Stream(Settle(s)) == Stream(s);
  }

  lemma FailKeeps(log: seq<Event>, s: Session, reason: string)
    requires Core(log, s)
    ensures Core(log, Fail(s, reason)) && Fail(s, reason).closing
    ensures !s.processing ==> Quiet(log, Fail(s, reason))
  {
    var t := if s.closing then s else s.(closing := true, status := Exhausted(reason));
    assert Stream(t) == Stream(s);
    SettleKeeps(log, t);
  }

  /** The end of pump for an open session whose filling loop has come to rest. */
  lemma ServeKeeps(log: seq<Event>, s: Session)
    requires Core(log, s) && !s.closing && !CanTake(log, s) && !Lags(log, s)
    ensures Core(log, Read(Launch(s))) && Read(Launch(s)).processing == s.processing
    ensures Fed(log, Read(Launch(s)))
    ensures !s.processing ==> Quiet(log, Read(Launch(s)))
  {
    LaunchKeeps(log, s);
    ReadKeeps(log, Launch(s));
  }

  /** Pump keeps the invariant; outside a handler's critical section it leaves the session quiet. */
  lemma PumpKeeps(log: seq<Event>, s: Session)
    requires Core(log, s) && Published(log)
    ensures Core(log, Pump(log, s)) && Pump(log, s).processing == s.processing
    ensures Fed(log, Pump(log, s))
    ensures !s.processing ==> Quiet(log, Pump(log, s))
  {
    if s.finishing {
    } else if s.closing {
      SettleKeeps(log, s);
    } else {
      var (filled, lagged) := Fill(log, s);
      FillKeeps(log, s);
      FillFrame(log, s);
      if lagged {
        FailKeeps(log, filled, LAGGED);
      } else {
        FillStops(log, s);
        ServeKeeps(log, filled);
      }
    }
  }

  lemma MetadataKeeps(log: seq<Event>, s: Session, ok: bool)
    requires Core(log, s) && Published(log) && !s.processing && !s.metadata
    ensures Core(log, SendMetadataDone(log, s, ok)) && Quiet(log, SendMetadataDone(log, s, ok))
  {
    var t := s.(metadata := true, wire := MetadataDone(s.wire));
    assert Stream(t) == Stream(s);
    FailKeeps(log, t, "response metadata failed");
    PumpKeeps(log, if ok then t else Fail(t, "response metadata failed"));
  }

  /** A completed write leaves the queue; the stream as a whole is unchanged. */
  lemma PopKeeps(log: seq<Event>, s: Session, ok: bool)
    requires Core(log, s) && s.writing
    ensures var t := s.(writing := false, queue := s.queue[1..], wire := WriteDone(s.wire, ok));
            && Stream(t) == Stream(s)
            && Shape(t) && Flushed(t) && Flow(log, t) && Finale(log, t) && Measured(t)
  {
    PopStream(s, ok);
  }

  lemma PopStream(s: Session, ok: bool)
    requires s.queue != [] && s.wire.writeOut == Some(s.queue[0])
    ensures Stream(s.(writing := false, queue := s.queue[1..], wire := WriteDone(s.wire, ok))) == Stream(s)
  {
    assert s.queue == [s.queue[0]] + s.queue[1..];
  }

  /** The session after a completed write, before it is pumped. */
  function Popped(s: Session, ok: bool): Session
    requires s.queue != [] && s.wire.writeOut.Some?
  {
    s.(writing := false, queue := s.queue[1..], wire := WriteDone(s.wire, ok))
  }

  lemma WriteDeliveredKeeps(log: seq<Event>, s: Session)
    requires Core(log, s) && Published(log) && s.writing && !s.processing
    ensures Core(log, WriteCompleted(log, s, true)) && Quiet(log, WriteCompleted(log, s, true))
  {
    var popped := Popped(s, true);
    PopKeeps(log, s, true);
    var t := if s.queue[0].Completed? then popped.(closing := true) else popped;
    assert Stream(t) == Stream(s);
    assert Core(log, t);
    PumpKeeps(log, t);
    QuietIsRead(log, Pump(log, t));
  }

  lemma WriteLostKeeps(log: seq<Event>, s: Session)
    requires Core(log, s) && Published(log) && s.writing && !s.processing
    ensures Core(log, WriteCompleted(log, s, false)) && Quiet(log, WriteCompleted(log, s, false))
  {
    var popped := Popped(s, false);
    PopKeeps(log, s, false);
    assert s.status.Ok? ==> !s.closing;
    var failed := if s.closing then popped else popped.(closing := true, status := Exhausted("event write failed"));
    assert Stream(failed) == Stream(s);
    assert Core(log, failed);
    SettleKeeps(log, failed);
    PumpKeeps(log, Settle(failed));
    QuietIsRead(log, Pump(log, Settle(failed)));
  }

  lemma WriteKeeps(log: seq<Event>, s: Session, ok: bool)
    requires Core(log, s) && Published(log) && s.writing && !s.processing
    ensures Core(log, WriteCompleted(log, s, ok)) && Quiet(log, WriteCompleted(log, s, ok))
  {
    if ok {
      WriteDeliveredKeeps(log, s);
    } else {
      WriteLostKeeps(log, s);
    }
  }

  lemma QuietIsRead(log: seq<Event>, s: Session)
    requires Core(log, s) && Quiet(log, s)
    ensures Read(s) == s
  {
  }

  /** A new event is published: every session that had not seen the end keeps its invariant. */
  lemma PublishKeeps(log: seq<Event>, e: Event, s: Session)
    requires Core(log, s) && (log == [] || !Last(log).Drained?)
    ensures Core(log + [e], s)
  {
    FlowGrows(log, e, s);
    FinaleOpen(log, log + [e], s);
  }

  lemma FlowGrows(log: seq<Event>, e: Event, s: Session)
    requires Flow(log, s)
    ensures Flow(log + [e], s)
  {
    if s.joined {
      assert (log + [e])[s.joinPoint..s.cursor - 1] == log[s.joinPoint..s.cursor - 1];
    }
  }

  /** Before the end nothing is noted and nothing is completed, whatever is published next. */
  lemma FinaleOpen(log: seq<Event>, log': seq<Event>, s: Session)
    requires Finale(log, s) && !Caught(log, s) && !Caught(log', s)
    ensures Finale(log', s)
  {
  }

  // ---- one received message ----

  lemma ReceiveKeeps(log: seq<Event>, s: Session)
    requires Core(log, s) && s.wire.readsOut > 0
    ensures Core(log, Receive(s))
  {
    assert Stream(Receive(s)) == Stream(s);
  }

  lemma ReleaseKeeps(log: seq<Event>, s: Session)
    requires Core(log, s) && s.processing
    ensures Core(log, Release(s))
  {
    assert Stream(Release(s)) == Stream(s);
  }

  /** A reply joins the end of the stream. */
  lemma ReplyKeeps(log: seq<Event>, s: Session, e: Event)
    requires Core(log, s) && s.processing && !e.Broadcast?() && !e.Completed?
    ensures Core(log, Release(Reply(s, e)))
  {
    var t := Release(Reply(s, e));
    assert Stream(t) == Stream(s) + [e];
    assert Stream(t)[..|Stream(s)|] == Stream(s);
    StreamGrows(log, s, t, e);
  }

  /** The Completed reply follows everything the hub published since the join. */
  lemma CompletedFinale(log: seq<Event>, s: Session, t: Session, report: Report)
    requires Core(log, s) && s.drained == Some(report.revision) && t == Release(Reply(s, Completed(report)))
    ensures Finale(log, t)
  {
    var e := Completed(report);
    assert Stream(t) == Stream(s) + [e];
    assert log[s.joinPoint..s.cursor - 1] == log[s.joinPoint..];
    forall j | 0 <= j < |Stream(t)| && Stream(t)[j].Completed?
      ensures Broadcasts(Stream(t)[..j]) == log[t.joinPoint..]
      ensures Stream(t)[j].report.revision == Last(log).upTo
    {
      if j < |Stream(s)| {
        assert Stream(s)[j].Completed?;
        assert Stream(t)[..j] == Stream(s)[..j];
      } else {
        assert Stream(t)[..j] == Stream(s);
      }
    }
  }

  lemma CompletedKeeps(log: seq<Event>, s: Session, report: Report)
    requires Core(log, s) && s.processing && s.drained == Some(report.revision)
    ensures Core(log, Release(Reply(s, Completed(report))))
  {
    var t := Release(Reply(s, Completed(report)));
    CompletedFinale(log, s, t, report);
    assert Stream(t) == Stream(s) + [Completed(report)];
    assert Stream(t)[..|Stream(s)|] == Stream(s);
  }

  lemma NoteMeasured(s: Session, revision: nat, bucket: Option<nat>)
    requires Measured(s) && (bucket.Some? ==> bucket.value < BUCKETS)
    ensures Measured(Note(s, revision, bucket))
  {
    if bucket.Some? {
      Histogram.TallyRecord(s.histogram, s.recorded, bucket.value);
    }
  }

  /** The statistics play no part in the flow of events. */
  lemma NoteKeeps(log: seq<Event>, s: Session, revision: nat, bucket: Option<nat>)
    requires Core(log, s) && s.processing && (bucket.Some? ==> bucket.value < BUCKETS)
    ensures Core(log, Release(Note(s, revision, bucket)))
  {
    NoteMeasured(s, revision, bucket);
    assert Stream(Release(Note(s, revision, bucket))) == Stream(s);
  }

  // ---- lag ----

  /** The ring slot of event k has been given to a later event. */
  ghost predicate Overwritten(log: seq<Event>, k: nat) {
    1 <= k <= |log| && Slots.Holder(|log|, RING, k % RING) != k
  }

  lemma OverwrittenByDistance(log: seq<Event>, k: nat)
    ensures Overwritten(log, k) <==> 1 <= k && k + RING <= |log|
  {
    if 1 <= k <= |log| {
      Slots.HolderIsLive(|log|, RING, k);
    }
  }

  lemma {:induction false} FillLagsByDistance(log: seq<Event>, s: Session)
    requires |s.queue| <= QUEUE
    ensures Fill(log, s).1 <==>
            s.joined && |s.queue| + |s.controls| < QUEUE && 1 <= s.cursor && s.cursor + RING <= |log|
    decreases QUEUE - |s.queue|
  {
    if CanTake(log, s) {
      FillLagsByDistance(log, TakeOne(log, s));
    }
  }

  /** The filling loop reports a lag exactly when it needs an event that the ring has lost. */
  lemma FillLags(log: seq<Event>, s: Session)
    requires |s.queue| <= QUEUE
    ensures Fill(log, s).1 <==> s.joined && |s.queue| + |s.controls| < QUEUE && Overwritten(log, s.cursor)
  {
    OverwrittenByDistance(log, s.cursor);
    FillLagsByDistance(log, s);
  }

  /** An open session is failed by pump exactly when the next event it has room for is lost. */
  lemma PumpFailsExactlyOnLag(log: seq<Event>, s: Session)
    requires Core(log, s) && !s.closing
    ensures Pump(log, s).closing <==>
            s.joined && |s.queue| + |s.controls| < QUEUE && Overwritten(log, s.cursor)
    ensures Pump(log, s).closing ==> Pump(log, s).status == Exhausted(LAGGED)
  {
    FillLags(log, s);
    FillFrame(log, s);
  }

  // ---- buffer hints ----

  /**
   * A write that pump starts is the head of the queue.  It is hinted exactly when it is an update with
   * another event behind it and fewer than 15 hinted writes have come before it in a row.
   */
  lemma HintsAreExact(log: seq<Event>, s: Session)
    requires Core(log, s) && Published(log) && !s.closing && !s.writing && !Pump(log, s).closing
    ensures var t := Pump(log, s);
            && (t.writing <==> t.queue != [] && t.metadata)
            && (t.writing ==>
                  && t.wire.writeOut == Some(t.queue[0])
                  && (t.wire.lastHint <==> t.queue[0].Update? && |t.queue| > 1 && s.wire.hintRun < 15)
                  && t.wire.hintRun == if t.wire.lastHint then s.wire.hintRun + 1 else 0)
            && (!t.writing ==> t.wire.lastHint == s.wire.lastHint && t.wire.hintRun == s.wire.hintRun)
  {
    FillFrame(log, s);
    FillKeeps(log, s);
    ServeHints(Fill(log, s).0);
  }

  lemma ServeHints(s: Session)
    requires Shape(s) && !s.writing
    ensures var t := Read(Launch(s));
            && (t.writing <==> t.queue != [] && t.metadata)
            && (t.writing ==>
                  && t.wire.writeOut == Some(t.queue[0])
                  && (t.wire.lastHint <==> t.queue[0].Update? && |t.queue| > 1 && s.wire.hintRun < 15)
                  && t.wire.hintRun == if t.wire.lastHint then s.wire.hintRun + 1 else 0)
            && (!t.writing ==> t.wire.lastHint == s.wire.lastHint && t.wire.hintRun == s.wire.hintRun)
  {
  }

  /** While a write is under way, pump starts no other. */
  lemma OneWriteAtATime(log: seq<Event>, s: Session)
    requires s.writing
    ensures Pump(log, s).writing && Pump(log, s).wire.writeOut == s.wire.writeOut
    ensures Pump(log, s).wire.lastHint == s.wire.lastHint && Pump(log, s).wire.hintRun == s.wire.hintRun
  {
    FillFrame(log, s);
  }
}
