/**
 * The hub and its sessions as they are: objects that share a ring and update their fields in
 * place.  Each operation is proved to do what its step in the model does.
 */
module PushHub {
  import opened Common
  import opened PushTypes
  import opened Reactor
  import M = SessionModel
  import H = HubModel
  import Histogram
  import Keys
  import Slots

  /** Slot k places after the head of a circular buffer. */
  function Slot(head: nat, k: nat): (slot: nat)
    ensures slot < QUEUE
  {
    (head + k) % QUEUE
  }

  ghost predicate Filled(slots: seq<Option<Event>>, head: nat, queued: nat) {
    && |slots| == QUEUE && head < QUEUE && queued <= QUEUE
    && forall k :: 0 <= k < queued ==> slots[Slot(head, k)].Some?
  }

  /** The queued events of a circular buffer. */
  ghost function Window(slots: seq<Option<Event>>, head: nat, queued: nat): (q: seq<Event>)
    requires Filled(slots, head, queued)
    ensures |q| == queued
    ensures forall k :: 0 <= k < queued ==> q[k] == slots[Slot(head, k)].value
  {
    seq(queued, k requires 0 <= k < queued && slots[Slot(head, k)].Some? => slots[Slot(head, k)].value)
  }

  /** Writing the slot after the last queued one disturbs none of the others. */
  lemma WindowPush(slots: seq<Option<Event>>, head: nat, queued: nat, e: Event)
    requires Filled(slots, head, queued) && queued < QUEUE
    ensures var slots' := slots[Slot(head, queued) := Some(e)];
            Filled(slots', head, queued + 1) && Window(slots', head, queued + 1) == Window(slots, head, queued) + [e]
  {
    var slots' := slots[Slot(head, queued) := Some(e)];
    forall k | 0 <= k < queued
      ensures slots'[Slot(head, k)] == slots[Slot(head, k)]
    {
      SlotsDiffer(head, k, queued);
    }
  }

  lemma SlotsDiffer(head: nat, j: nat, k: nat)
    requires head < QUEUE && j < k < QUEUE
    ensures Slot(head, j) != Slot(head, k)
  {
  }

  /** Leaving the head slot; what it holds afterwards does not matter. */
  lemma WindowPop(slots: seq<Option<Event>>, head: nat, queued: nat, left: Option<Event>)
    requires Filled(slots, head, queued) && queued > 0
    ensures var slots' := slots[head := left];
            && Filled(slots', Slot(head, 1), queued - 1)
            && Window(slots', Slot(head, 1), queued - 1) == Window(slots, head, queued)[1..]
  {
    var slots' := slots[head := left];
    forall k | 0 <= k < queued - 1
      ensures Slot(Slot(head, 1), k) == Slot(head, k + 1) && slots'[Slot(head, k + 1)] == slots[Slot(head, k + 1)]
    {
      SlotAfterHead(head, k);
      SlotsDiffer(head, 0, k + 1);
    }
  }

  lemma SlotAfterHead(head: nat, k: nat)
    requires head < QUEUE && k < QUEUE
    ensures Slot(head, 0) == head && Slot(Slot(head, 1), k) == Slot(head, k + 1)
  {
  }

  /** A ring slot holds the latest event that was written to it. */
  ghost predicate Held(slots: seq<Option<Event>>, log: seq<Event>, slot: nat)
    requires slot < |slots|
  {
    var k := Slots.Holder(|log|, RING, slot);
    0 < k <= |log| ==> slots[slot] == Some(log[k - 1])
  }

  ghost predicate RingHolds(slots: seq<Option<Event>>, log: seq<Event>) {
    && |slots| == RING
    && forall slot :: 0 <= slot < RING ==> Held(slots, log, slot)
  }

  lemma RingPush(slots: seq<Option<Event>>, log: seq<Event>, e: Event)
    requires RingHolds(slots, log)
    ensures RingHolds(slots[(|log| + 1) % RING := Some(e)], log + [e])
  {
    var slots', log' := slots[(|log| + 1) % RING := Some(e)], log + [e];
    forall slot | 0 <= slot < RING
      ensures Held(slots', log', slot)
    {
      assert Held(slots, log, slot);
      HolderBound(|log|, RING, slot);
    }
  }

  /** A stamp slot holds the latest revision that was stamped there, 0 before the first. */
  ghost predicate Stamped(slots: seq<(nat, int)>, revision: nat, schedule: seq<int>, slot: nat)
    requires slot < |slots|
  {
    var k := Slots.Holder(revision, STAMPS, slot);
    slots[slot].0 == k && (0 < k <= |schedule| ==> slots[slot].1 == schedule[k - 1])
  }

  ghost predicate StampsHold(slots: seq<(nat, int)>, revision: nat, schedule: seq<int>) {
    && |slots| == STAMPS && |schedule| == revision
    && forall slot :: 0 <= slot < STAMPS ==> Stamped(slots, revision, schedule, slot)
  }

  lemma StampPush(slots: seq<(nat, int)>, revision: nat, schedule: seq<int>, scheduled: int)
    requires StampsHold(slots, revision, schedule)
    ensures var next := revision + 1;
            StampsHold(slots[next % STAMPS := (next, scheduled)], next, schedule + [scheduled])
  {
    var next := revision + 1;
    var slots', schedule' := slots[next % STAMPS := (next, scheduled)], schedule + [scheduled];
    forall slot | 0 <= slot < |slots'|
      ensures Stamped(slots', next, schedule', slot)
    {
      assert Stamped(slots, revision, schedule, slot);
      HolderBound(revision, STAMPS, slot);
    }
  }

  class Session {
    const hub: Hub
    const output: array<Option<Event>>
    const latency: array<nat>
    var controls: seq<Event>
    var cursor: nat
    var lastProgress: nat
    var samples: nat
    var expired: nat
    var drained: Option<nat>
    var head: nat
    var queued: nat
    var buffered: nat
    var joined: bool
    var reading: bool
    var processing: bool
    var writing: bool
    var metadata: bool
    var closing: bool
    var finishing: bool
    var status: Status
    ghost var wire: Wire
    ghost var joinPoint: nat
    ghost var joinTable: Table
    ghost var recorded: seq<nat>
    ghost var reports: nat

    ghost predicate Valid()
      reads this`head, this`queued, output
    {
      && output.Length == QUEUE && latency.Length == BUCKETS
      && Filled(output[..], head, queued)
    }

    /** The queued writes, oldest first. */
    ghost function Queue(): seq<Event>
      requires Valid()
      reads this`head, this`queued, output
    {
      Window(output[..], head, queued)
    }

    /** The session as the model sees it. */
    ghost function State(): M.Session
      requires Valid()
      reads this, output, latency
    {
      M.Session(joined, reading, processing, writing, metadata, closing, finishing, status,
                cursor, lastProgress, samples, expired, drained, buffered,
                Queue(), controls, latency[..],
                wire, joinPoint, joinTable, recorded, reports)
    }

    ghost predicate Is(m: M.Session)
      reads this, output, latency
    {
      Valid() && State() == m && (joined ==> cursor > 0)
    }

    /** Fields of a session that has not started its first read. */
    constructor Blank(hub: Hub)
      ensures this.hub == hub && fresh(output) && fresh(latency) && Valid()
      ensures M.Read(State()) == M.Open() && !reading && !processing && !closing && controls == []
    {
      this.hub := hub;
      output := new Option<Event>[QUEUE](_ => None);
      latency := new nat[BUCKETS](_ => 0);
      controls := [];
      cursor, lastProgress, samples, expired := 0, 0, 0, 0;
      drained, head, queued, buffered := None, 0, 0, 0;
      joined, reading, processing, writing := false, false, false, false;
      metadata, closing, finishing := false, false, false;
      status := Ok;
      wire, joinPoint, joinTable, recorded, reports := IDLE, 0, map[], [], 0;
      new;
      assert latency[..] == seq(BUCKETS, _ => 0);
      assert Window(output[..], head, queued) == [];
    }

    method Read()
      requires Valid()
      modifies this`reading, this`wire
      ensures Valid() && State() == M.Read(old(State()))
    {
      if !reading && !processing && !closing && |controls| < REPLIES {
        reading := true;
        wire := StartRead(wire);
      }
    }

    /** Copy an event into the slot after the last queued one. */
    method Enqueue(e: Event)
      requires Valid() && queued < QUEUE
      modifies this`queued, this`drained, output
      ensures Valid() && State() == M.Enqueue(old(State()), e)
      ensures queued == old(queued) + 1
    {
      WindowPush(output[..], head, queued, e);
      output[Slot(head, queued)] := Some(e);
      if e.Drained? {
        drained := Some(e.upTo);
      }
      queued := queued + 1;
    }

    /** Hand the head of the queue to the stream. */
    method Send(next: Event, hint: bool)
      requires Valid()
      modifies this`writing, this`wire
      ensures Valid() && State() == old(State()).(writing := true, wire := StartWrite(old(wire), next, hint))
    {
      writing := true;
      wire := StartWrite(wire, next, hint);
    }

    method CountHint(hint: bool)
      requires Valid()
      modifies this`buffered
      ensures Valid() && State() == old(State()).(buffered := if hint then old(buffered) + 1 else 0)
    {
      buffered := if hint then buffered + 1 else 0;
    }

    /** Start the next write; only the last ready update and replies are sent at once. */
    method Launch()
      requires Valid()
      modifies this`writing, this`buffered, this`wire
      ensures Valid() && State() == M.Launch(old(State()))
    {
      if queued > 0 && !writing && metadata {
        assert Slot(head, 0) == head;
        var next := output[head].value;
        assert next == Queue()[0];
        var hint := queued > 1 && next.Update? && buffered < HINTS;
        CountHint(hint);
        Send(next, hint);
      }
    }

    method TakeReply()
      requires Valid() && queued < QUEUE && controls != []
      modifies this`controls, this`queued, this`drained, output
      ensures Valid() && queued == old(queued) + 1
      ensures State() == M.Enqueue(old(State()).(controls := old(controls)[1..]), old(controls)[0])
    {
      var next := controls[0];
      controls := controls[1..];
      Enqueue(next);
    }

    method TakeBroadcast()
      requires Valid() && queued < QUEUE && 1 <= cursor <= hub.sequence && hub.RingValid()
      modifies this`cursor, this`queued, this`drained, output
      ensures Valid() && queued == old(queued) + 1
      ensures State() == M.Enqueue(old(State()).(cursor := old(cursor) + 1), M.RingEvent(hub.log, old(cursor)))
    {
      hub.RingRead(cursor);
      var next := hub.ring[cursor % RING].value;
      cursor := cursor + 1;
      Enqueue(next);
    }

    /** One round of the filling loop on a queue with a free slot. */
    method TakeNext() returns (taken: bool, lagged: bool)
      requires Valid() && queued < QUEUE && hub.RingValid() && output != hub.ring && (joined ==> cursor > 0)
      modifies this`controls, this`cursor, this`queued, this`drained, output
      ensures Valid() && (joined ==> cursor > 0)
      ensures taken ==> queued == old(queued) + 1 && M.Fill(hub.log, State()) == M.Fill(hub.log, old(State()))
      ensures !taken ==> State() == old(State()) && M.Fill(hub.log, State()) == (State(), lagged)
    {
      taken, lagged := false, false;
      if controls != [] {
        TakeReply();
        taken := true;
      } else if joined && cursor <= hub.sequence {
        if hub.sequence - cursor >= RING {
          lagged := true;
        } else {
          TakeBroadcast();
          taken := true;
        }
      }
    }

    /** Move replies, then broadcasts, into the free write slots; true when the ring has lost the next event. */
    method FillQueue() returns (lagged: bool)
      requires Valid() && hub.RingValid() && output != hub.ring && (joined ==> cursor > 0)
      modifies this`controls, this`cursor, this`queued, this`drained, output
      ensures Valid() && hub.RingValid() && (joined ==> cursor > 0)
      ensures (State(), lagged) == M.Fill(hub.log, old(State()))
    {
      while queued < QUEUE
        invariant Valid() && hub.RingValid() && (joined ==> cursor > 0)
        invariant M.Fill(hub.log, State()) == M.Fill(hub.log, old(State()))
        decreases QUEUE - queued
      {
        var taken;
        taken, lagged := TakeNext();
        if !taken {
          return;
        }
      }
      lagged := false;
    }

    /** End the call once nothing is in flight. */
    method Settle()
      requires Valid() && !finishing
      modifies this`finishing, this`wire
      ensures Valid() && State() == M.Settle(old(State()))
    {
      if !writing && metadata {
        finishing := true;
        wire := Finish(wire);
      }
    }

    method Pump()
      requires Valid() && hub.RingValid() && output != hub.ring && (joined ==> cursor > 0)
      modifies this, output
      ensures Valid() && State() == M.Pump(hub.log, old(State())) && (joined ==> cursor > 0)
      decreases if closing then 1 else 3
    {
      if finishing {
        return;
      }
      if closing {
        Settle();
        return;
      }
      ghost var before := State();
      var lagged := FillQueue();
      M.FillFrame(hub.log, before);
      if lagged {
        Fail(M.LAGGED);
        return;
      }
      Serve();
    }

    /** The end of pump: write if there is something to write, and read on. */
    method Serve()
      requires Valid()
      modifies this`writing, this`buffered, this`reading, this`wire
      ensures Valid() && State() == M.Read(M.Launch(old(State())))
    {
      Launch();
      Read();
    }

    /** Pump, told through the model state. */
    method Advance(ghost m: M.Session)
      requires Is(m) && hub.RingValid() && output != hub.ring
      modifies this, output
      ensures Is(M.Pump(hub.log, m))
    {
      Pump();
    }

    method Fail(reason: string)
      requires Valid() && hub.RingValid() && output != hub.ring && (joined ==> cursor > 0)
      modifies this, output
      ensures Valid() && State() == M.Fail(old(State()), reason) && (joined ==> cursor > 0)
      decreases 2
    {
      if !closing {
        closing := true;
        status := Exhausted(reason);
      }
      Pump();
    }

    /** Fail, told through the model state. */
    method Stop(reason: string, ghost m: M.Session)
      requires Is(m) && hub.RingValid() && output != hub.ring
      modifies this, output
      ensures Is(M.Fail(m, reason))
    {
      Fail(reason);
    }

    method MarkMetadata(ghost m: M.Session)
      requires Is(m)
      modifies this`metadata, this`wire
      ensures Is(m.(metadata := true, wire := MetadataDone(m.wire)))
    {
      metadata := true;
      wire := MetadataDone(wire);
    }

    method OnSendInitialMetadataDone(ok: bool, ghost m: M.Session)
      requires Is(m) && hub.RingValid() && output != hub.ring
      modifies this, output
      ensures Is(M.SendMetadataDone(hub.log, m, ok))
    {
      MarkMetadata(m);
      ghost var t := m.(metadata := true, wire := MetadataDone(m.wire));
      if !ok {
        Stop("response metadata failed", t);
        t := M.Fail(t, "response metadata failed");
      }
      Advance(t);
    }

    /** The written event leaves the head slot; the slot is emptied when messages are not reused. */
    method DropHead()
      requires Valid() && queued > 0
      modifies this`head, this`queued, output
      ensures Valid() && Window(output[..], head, queued) == old(Window(output[..], head, queued))[1..]
    {
      WindowPop(output[..], head, queued, if hub.config.renew then None else output[head]);
      assert output[..][head := output[head]] == output[..];
      if hub.config.renew {
        output[head] := None;
      }
      head := (head + 1) % QUEUE;
      queued := queued - 1;
    }

    method HeadCompleted(ghost m: M.Session) returns (completed: bool)
      requires Is(m) && m.queue != []
      ensures completed == m.queue[0].Completed?
    {
      assert Slot(head, 0) == head;
      completed := output[head].value.Completed?;
    }

    method Unqueue(ghost m: M.Session)
      requires Is(m) && m.queue != []
      modifies this`head, this`queued, output
      ensures Is(m.(queue := m.queue[1..]))
    {
      DropHead();
    }

    method MarkWritten(ok: bool, ghost m: M.Session)
      requires Is(m) && m.wire.writeOut.Some?
      modifies this`writing, this`wire
      ensures Is(m.(writing := false, wire := WriteDone(m.wire, ok)))
    {
      writing := false;
      wire := WriteDone(wire, ok);
    }

    method PopHead(ok: bool, ghost m: M.Session) returns (completed: bool)
      requires Is(m) && m.queue != [] && m.wire.writeOut.Some?
      modifies this`writing, this`head, this`queued, this`wire, output
      ensures completed == m.queue[0].Completed?
      ensures Is(m.(writing := false, queue := m.queue[1..], wire := WriteDone(m.wire, ok)))
    {
      completed := HeadCompleted(m);
      MarkWritten(ok, m);
      Unqueue(m.(writing := false, wire := WriteDone(m.wire, ok)));
    }

    method Close(ghost m: M.Session)
      requires Is(m)
      modifies this`closing
      ensures Is(m.(closing := true))
    {
      closing := true;
    }

    /** Read, told through the model state. */
    method Listen(ghost m: M.Session)
      requires Is(m)
      modifies this`reading, this`wire
      ensures Is(M.Read(m))
    {
      Read();
    }

    method OnWriteDone(ok: bool, ghost m: M.Session)
      requires Is(m) && hub.RingValid() && output != hub.ring && m.queue != [] && m.wire.writeOut.Some?
      modifies this, output
      ensures Is(M.WriteCompleted(hub.log, m, ok))
    {
      var completed := PopHead(ok, m);
      ghost var t := m.(writing := false, queue := m.queue[1..], wire := WriteDone(m.wire, ok));
      if !ok {
        Stop("event write failed", t);
        t := M.Fail(t, "event write failed");
      }
      if completed && ok {
        Close(t);
        t := t.(closing := true);
      }
      Advance(t);
      Listen(M.Pump(hub.log, t));
    }

    method Answer(e: Event, ghost m: M.Session)
      requires Is(m)
      modifies this`controls
      ensures Is(M.Reply(m, e))
    {
      controls := controls + [e];
    }

    method TakePlace(ghost m: M.Session)
      requires Is(m) && hub.RingValid()
      modifies this`joined, this`cursor
      ensures Is(m.(joined := true, cursor := |hub.log| + 1))
    {
      joined := true;
      cursor := hub.sequence + 1;
    }

    ghost method Remember(m: M.Session)
      requires Is(m)
      modifies this`joinPoint, this`joinTable
      ensures Is(m.(joinPoint := |hub.log|, joinTable := hub.values))
    {
      joinPoint, joinTable := |hub.log|, hub.values;
    }

    /** Become a recipient of everything published from now on. */
    method Enrol(ghost m: M.Session)
      requires Is(m) && hub.RingValid()
      modifies this`joined, this`cursor, this`joinPoint, this`joinTable
      ensures Is(m.(joined := true, cursor := |hub.log| + 1, joinPoint := |hub.log|, joinTable := hub.values))
    {
      TakePlace(m);
      Remember(m.(joined := true, cursor := |hub.log| + 1));
    }

    /** The message is in use from here on. */
    method UseMessage(ghost m: M.Session)
      requires Is(m)
      modifies this`processing, this`wire
      ensures Is(m.(processing := true, wire := UseInput(m.wire)))
    {
      processing := true;
      wire := UseInput(wire);
    }

    /** The received message belongs to the handler until it is released. */
    method Receive(ghost m: M.Session)
      requires Is(m) && m.wire.readsOut > 0
      modifies this`reading, this`processing, this`wire
      ensures Is(M.Receive(m))
    {
      EndOfInput(m);
      UseMessage(m.(reading := false, wire := ReadDone(m.wire)));
    }

    method Release(ghost m: M.Session)
      requires Is(m)
      modifies this`processing, this`wire
      ensures Is(M.Release(m))
    {
      processing := false;
      wire := ReleaseInput(wire);
    }

    method EndOfInput(ghost m: M.Session)
      requires Is(m) && m.wire.readsOut > 0
      modifies this`reading, this`wire
      ensures Is(m.(reading := false, wire := ReadDone(m.wire)))
    {
      reading := false;
      wire := ReadDone(wire);
    }

    method MarkProgress(revision: nat, ghost m: M.Session)
      requires Is(m)
      modifies this`lastProgress, this`reports
      ensures Is(m.(lastProgress := revision, reports := m.reports + 1))
    {
      SetProgress(revision, m);
      CountReport(m.(lastProgress := revision));
    }

    method SetProgress(revision: nat, ghost m: M.Session)
      requires Is(m)
      modifies this`lastProgress
      ensures Is(m.(lastProgress := revision))
    {
      lastProgress := revision;
    }

    ghost method CountReport(m: M.Session)
      requires Is(m)
      modifies this`reports
      ensures Is(m.(reports := m.reports + 1))
    {
      reports := reports + 1;
    }

    method AddExpired(ghost m: M.Session)
      requires Is(m)
      modifies this`expired
      ensures Is(m.(expired := m.expired + 1))
    {
      expired := expired + 1;
    }

    method AddSample(bucket: nat, ghost m: M.Session)
      requires Is(m)
      modifies this`samples, this`recorded
      ensures Is(m.(samples := m.samples + 1, recorded := m.recorded + [bucket]))
    {
      samples := samples + 1;
      recorded := recorded + [bucket];
    }

    method Tick(bucket: nat, ghost m: M.Session)
      requires Is(m) && bucket < BUCKETS
      modifies latency
      ensures Is(m.(histogram := m.histogram[bucket := m.histogram[bucket] + 1]))
    {
      latency[bucket] := latency[bucket] + 1;
    }

    method CountExpired(revision: nat, ghost m: M.Session)
      requires Is(m)
      modifies this`lastProgress, this`expired, this`reports
      ensures Is(M.Note(m, revision, None))
    {
      MarkProgress(revision, m);
      AddExpired(m.(lastProgress := revision, reports := m.reports + 1));
    }

    method CountSample(revision: nat, bucket: nat, ghost m: M.Session)
      requires Is(m) && bucket < BUCKETS
      modifies this`lastProgress, this`samples, this`reports, this`recorded, latency
      ensures Is(M.Note(m, revision, Some(bucket)))
    {
      MarkProgress(revision, m);
      ghost var marked := m.(lastProgress := revision, reports := m.reports + 1);
      Tick(bucket, marked);
      AddSample(bucket, marked.(histogram := m.histogram[bucket := m.histogram[bucket] + 1]));
    }

    /** A progress report that is not final. */
    method Observe(revision: nat, now: int, ghost m: M.Session)
      requires Is(m) && StampsHold(hub.stamps[..], hub.revision, hub.schedule) && 0 < revision <= hub.revision
      modifies this, latency
      ensures Is(H.Observe(hub.Model(), m, revision, now))
    {
      assert Stamped(hub.stamps[..], hub.revision, hub.schedule, revision % STAMPS);
      var stamp := hub.stamps[revision % STAMPS];
      if stamp.0 != revision {
        CountExpired(revision, m);
      } else {
        CountSample(revision, H.Bucket(now - stamp.1), m);
      }
    }

    method Summarize(revision: nat, ghost m: M.Session) returns (report: Report)
      requires Is(m)
      ensures report == H.Summary(m, revision)
    {
      var p50 := Percentile(50);
      var p95 := Percentile(95);
      var p99 := Percentile(99);
      report := Report(revision, samples, expired, p50, p95, p99);
    }

    /** The nearest-rank percentile of the recorded delays. */
    method Percentile(percent: nat) returns (value: nat)
      requires Valid()
      ensures value == Histogram.Percentile(latency[..], samples, percent)
    {
      var target := Histogram.Rank(samples, percent);
      if target == 0 {
        return 0;
      }
      var count := 0;
      for i := 0 to latency.Length
        invariant Histogram.Scan(latency[..], target, 0, 0) == Histogram.Scan(latency[..], target, i, count)
      {
        count := count + latency[i];
        if count >= target {
          return (i + 1) * 100;
        }
      }
      return 10000100;
    }
  }

  class Hub {
    const config: Config
    const ring: array<Option<Event>>
    const stamps: array<(nat, int)>
    var sessions: seq<Session>
    var values: Table
    var sequence: nat
    var revision: nat
    var joined: nat
    var finished: bool
    var stop: bool
    ghost var log: seq<Event>
    ghost var schedule: seq<int>
    ghost var phase: H.Phase

    /** Every configured key starts with its initial payload. */
    constructor (config: Config)
      requires config.Checked()
      ensures Represents(H.Start(config))
    {
      this.config := config;
      ring := new Option<Event>[RING](_ => None);
      stamps := new (nat, int)[STAMPS](_ => (0, 0));
      sessions := [];
      values := map[];
      sequence, revision, joined, finished, stop := 0, 0, 0, false, false;
      log, schedule, phase := [], [], H.Waiting;
      new;
      FillDomain(Registry);
      FillDomain(Catalog);
      assert map[] + Keys.Seed(config, Registry, config.registries) == Keys.Seed(config, Registry, config.registries);
    }

    method FillDomain(domain: Domain)
      requires config.Checked()
      modifies this`values
      ensures values == old(values) + Keys.Seed(config, domain, Keys.Count(config, domain))
    {
      for i := 0 to Keys.Count(config, domain)
        invariant values == old(values) + Keys.Seed(config, domain, i)
      {
        var size := if domain == Registry then 128 else config.bytes;
        values := values[Keys.Key(config, domain, i, false) := (0, Keys.Payload(size, i, 49))];
      }
    }

    ghost predicate RingValid()
      reads this, ring
    {
      |log| == sequence && RingHolds(ring[..], log)
    }

    lemma RingRead(k: nat)
      requires RingValid() && 1 <= k <= sequence
      ensures ring[k % RING] == Some(M.RingEvent(log, k))
    {
      Slots.HolderIsLive(sequence, RING, k);
      assert Held(ring[..], log, k % RING);
    }

    /** No two sessions share storage with each other or with the ring. */
    ghost predicate Separate()
      reads this
    {
      && (forall i :: 0 <= i < |sessions| ==> sessions[i].hub == this && sessions[i].output != ring)
      && forall i, j :: 0 <= i < |sessions| && 0 <= j < |sessions| && i != j ==>
           && sessions[i] != sessions[j]
           && sessions[i].output != sessions[j].output
           && sessions[i].latency != sessions[j].latency
    }

    /** The sessions and their write slots. */
    ghost function Bodies(): set<object>
      reads this
    {
      (set s: Session | s in sessions :: s as object) + (set s: Session | s in sessions :: s.output as object)
    }

    ghost function Footprint(): set<object>
      reads this
    {
      {this, ring, stamps} + Bodies() + (set s: Session | s in sessions :: s.latency as object)
    }

    lemma Covers(i: nat)
      requires i < |sessions|
      ensures sessions[i] in Bodies() && sessions[i].output in Bodies()
      ensures {sessions[i], sessions[i].output, sessions[i].latency} <= Footprint()
    {
      assert sessions[i] in sessions;
    }

    ghost function Model(): H.Hub
      reads this
    {
      H.Hub(config, values, log, revision, schedule, joined, finished, stop, phase)
    }

    /** The objects are in the state w of the model. */
    ghost predicate Represents(w: H.World)
      reads Footprint()
    {
      && RingValid() && StampsHold(stamps[..], revision, schedule) && Separate()
      && Model() == w.hub && |sessions| == |w.sessions|
      && forall i {:trigger sessions[i]} :: 0 <= i < |sessions| ==> sessions[i].Is(w.sessions[i])
    }

    /** Pump every session; none of them touches the hub or another session. */
    method PumpSessions(ghost ss: seq<M.Session>)
      requires RingValid() && Separate() && |sessions| == |ss|
      requires forall i {:trigger sessions[i]} :: 0 <= i < |sessions| ==> sessions[i].Is(ss[i])
      modifies Bodies()
      ensures RingValid()
      ensures forall i {:trigger sessions[i]} :: 0 <= i < |sessions| ==> sessions[i].Is(M.Pump(log, ss[i]))
    {
      for k := 0 to |sessions|
        invariant RingValid()
        invariant forall i {:trigger sessions[i]} :: 0 <= i < k ==> sessions[i].Is(M.Pump(log, ss[i]))
        invariant forall i {:trigger sessions[i]} :: k <= i < |sessions| ==> sessions[i].Is(ss[i])
      {
        Covers(k);
        sessions[k].Advance(ss[k]);
      }
    }

    /** The next ring slot takes the event; no session notices. */
    method Append(e: Event, ghost w: H.World)
      requires Represents(w)
      modifies this`sequence, this`log, ring
      ensures Represents(w.(hub := w.hub.(log := w.hub.log + [e])))
    {
      RingPush(ring[..], log, e);
      sequence := sequence + 1;
      ring[sequence % RING] := Some(e);
      log := log + [e];
    }

    method Publish(e: Event, ghost w: H.World)
      requires Represents(w)
      modifies this`sequence, this`log, ring, Bodies()
      ensures Represents(H.Announce(w, e))
    {
      Append(e, w);
      PumpSessions(w.sessions);
    }

    /** Record a new revision in the table and in its stamp slot. */
    method Store(name: string, data: Bytes, scheduled: int)
      requires StampsHold(stamps[..], revision, schedule) && name in values
      modifies this`revision, this`values, this`schedule, stamps
      ensures StampsHold(stamps[..], revision, schedule)
      ensures revision == old(revision) + 1 && schedule == old(schedule) + [scheduled]
      ensures values == old(values)[name := (revision, data)]
    {
      StampPush(stamps[..], revision, schedule, scheduled);
      revision := revision + 1;
      values := values[name := (revision, data)];
      stamps[revision % STAMPS] := (revision, scheduled);
      schedule := schedule + [scheduled];
    }

    /** The sessions do not notice a new revision before it is published. */
    method Enter(domain: Domain, data: Bytes, scheduled: int, ghost w: H.World) returns (name: string)
      requires Represents(w) && config.Checked() && Keys.Key(config, domain, revision + 1, true) in values
      modifies this`revision, this`values, this`schedule, stamps
      ensures Represents(w.(hub := H.Commit(w.hub, domain, data, scheduled)))
      ensures name == Keys.Key(config, domain, revision, true)
    {
      name := Keys.Key(config, domain, revision + 1, true);
      Store(name, data, scheduled);
    }

    method Apply(domain: Domain, data: Bytes, scheduled: int, ghost w: H.World) returns (accepted: bool)
      requires Represents(w) && H.HubInv(w.hub)
      modifies this`sequence, this`log, this`revision, this`values, this`schedule, ring, stamps, Bodies()
      ensures Represents(H.Apply(w, domain, data, scheduled)) && accepted == !w.hub.finished
    {
      if finished {
        return false;
      }
      Keys.KeyExists(config, domain, revision + 1);
      var name := Enter(domain, data, scheduled, w);
      Publish(Update(revision, name, data, domain), w.(hub := H.Commit(w.hub, domain, data, scheduled)));
      return true;
    }

    /** The producer's announcements. */
    method Begin(ghost w: H.World)
      requires Represents(w)
      modifies this`sequence, this`log, this`phase, ring, Bodies()
      ensures Represents(H.Announce(w.(hub := w.hub.(phase := H.Running)), Ready))
    {
      phase := H.Running;
      Publish(Ready, w.(hub := w.hub.(phase := H.Running)));
    }

    method Drain(ghost w: H.World)
      requires Represents(w)
      modifies this`sequence, this`log, this`phase, this`finished, ring, Bodies()
      ensures Represents(H.Announce(w.(hub := w.hub.(phase := H.Stopped, finished := true)), Drained(w.hub.revision)))
    {
      finished := true;
      phase := H.Stopped;
      Publish(Drained(revision), w.(hub := w.hub.(phase := H.Stopped, finished := true)));
    }

    method StopSessions(reason: string, ghost ss: seq<M.Session>)
      requires RingValid() && Separate() && |sessions| == |ss|
      requires forall i {:trigger sessions[i]} :: 0 <= i < |sessions| ==> sessions[i].Is(ss[i])
      modifies Bodies()
      ensures RingValid()
      ensures forall i {:trigger sessions[i]} :: 0 <= i < |sessions| ==> sessions[i].Is(M.Fail(ss[i], reason))
    {
      for k := 0 to |sessions|
        invariant RingValid()
        invariant forall i {:trigger sessions[i]} :: 0 <= i < k ==> sessions[i].Is(M.Fail(ss[i], reason))
        invariant forall i {:trigger sessions[i]} :: k <= i < |sessions| ==> sessions[i].Is(ss[i])
      {
        Covers(k);
        sessions[k].Stop(reason, ss[k]);
      }
    }

    method MarkStopped(ghost w: H.World)
      requires Represents(w)
      modifies this`stop
      ensures Represents(w.(hub := w.hub.(stop := true)))
    {
      stop := true;
    }

    method Shutdown(ghost w: H.World)
      requires Represents(w)
      modifies this`stop, Bodies()
      ensures Represents(H.Halt(w))
    {
      MarkStopped(w);
      StopSessions("server stopping", w.sessions);
    }

    // ---- actions of one session, seen in the whole world ----

    method StopOne(i: nat, reason: string, ghost w: H.World)
      requires Represents(w) && i < |sessions|
      modifies sessions[i], sessions[i].output
      ensures Represents(H.With(w, i, M.Fail(w.sessions[i], reason)))
    {
      sessions[i].Stop(reason, w.sessions[i]);
    }

    method AnswerOne(i: nat, e: Event, ghost w: H.World)
      requires Represents(w) && i < |sessions|
      modifies sessions[i]
      ensures Represents(H.With(w, i, M.Reply(w.sessions[i], e)))
    {
      sessions[i].Answer(e, w.sessions[i]);
    }

    method ObserveOne(i: nat, reported: nat, now: int, ghost w: H.World)
      requires Represents(w) && i < |sessions| && 0 < reported <= revision
      requires |w.sessions[i].histogram| == BUCKETS
      modifies sessions[i], sessions[i].latency
      ensures Represents(H.With(w, i, H.Observe(w.hub, w.sessions[i], reported, now)))
    {
      sessions[i].Observe(reported, now, w.sessions[i]);
    }

    method EnrolOne(i: nat, ghost w: H.World)
      requires Represents(w) && i < |sessions|
      modifies sessions[i]
      ensures Represents(H.With(w, i, H.Enrolled(w.hub, w.sessions[i])))
    {
      sessions[i].Enrol(w.sessions[i]);
    }

    method CountJoin(ghost w: H.World)
      requires Represents(w)
      modifies this`joined
      ensures Represents(w.(hub := w.hub.(joined := w.hub.joined + 1)))
    {
      joined := joined + 1;
    }

    method AdmitOne(i: nat, ghost w: H.World)
      requires Represents(w) && i < |sessions|
      modifies this`joined, sessions[i]
      ensures Represents(H.With(w.(hub := w.hub.(joined := w.hub.joined + 1)), i, H.Enrolled(w.hub, w.sessions[i])))
    {
      EnrolOne(i, w);
      CountJoin(H.With(w, i, H.Enrolled(w.hub, w.sessions[i])));
    }

    method ReceiveOne(i: nat, ghost w: H.World)
      requires Represents(w) && i < |sessions| && w.sessions[i].wire.readsOut > 0
      modifies sessions[i]
      ensures Represents(H.With(w, i, M.Receive(w.sessions[i])))
    {
      sessions[i].Receive(w.sessions[i]);
    }

    /** Give the message back, ask for the next one and go on sending. */
    method ResumeOne(i: nat, ghost w: H.World)
      requires Represents(w) && i < |sessions|
      modifies sessions[i], sessions[i].output
      ensures Represents(H.With(w, i, M.Pump(w.hub.log, M.Read(M.Release(w.sessions[i])))))
    {
      sessions[i].Release(w.sessions[i]);
      sessions[i].Listen(M.Release(w.sessions[i]));
      sessions[i].Advance(M.Read(M.Release(w.sessions[i])));
    }

    method OnSendInitialMetadataDone(i: nat, ok: bool, ghost w: H.World)
      requires Represents(w) && i < |sessions|
      modifies sessions[i], sessions[i].output
      ensures Represents(H.With(w, i, M.SendMetadataDone(w.hub.log, w.sessions[i], ok)))
    {
      sessions[i].OnSendInitialMetadataDone(ok, w.sessions[i]);
    }

    method OnWriteDone(i: nat, ok: bool, ghost w: H.World)
      requires Represents(w) && i < |sessions| && w.sessions[i].queue != [] && w.sessions[i].wire.writeOut.Some?
      modifies sessions[i], sessions[i].output
      ensures Represents(H.With(w, i, M.WriteCompleted(w.hub.log, w.sessions[i], ok)))
    {
      sessions[i].OnWriteDone(ok, w.sessions[i]);
    }

    /** A finished session leaves the list. */
    method OnDone(i: nat, ghost w: H.World)
      requires Represents(w) && i < |sessions|
      modifies this`sessions
      ensures Represents(w.(sessions := w.sessions[..i] + w.sessions[i + 1..]))
    {
      ghost var before := sessions;
      sessions := sessions[..i] + sessions[i + 1..];
      forall j | 0 <= j < |sessions|
        ensures sessions[j].Is((w.sessions[..i] + w.sessions[i + 1..])[j])
      {
        assert before[if j < i then j else j + 1].Is(w.sessions[if j < i then j else j + 1]);
      }
    }

    /** A new stream: the session registers itself and asks for the first message. */
    method Synchronize(ghost w: H.World)
      requires Represents(w)
      modifies this`sessions
      ensures Represents(w.(sessions := w.sessions + [M.Open()]))
    {
      var session := Accept();
      sessions := sessions + [session];
    }

    /** A session of this hub that has asked for its first message and is in no list yet. */
    method Accept() returns (session: Session)
      ensures fresh(session) && fresh(session.output) && fresh(session.latency)
      ensures session.hub == this && session.Is(M.Open())
    {
      session := new Session.Blank(this);
      session.Read();
    }

    method HangUpOne(i: nat, ghost w: H.World)
      requires Represents(w) && i < |sessions| && w.sessions[i].wire.readsOut > 0
      modifies sessions[i], sessions[i].output
      ensures var s := w.sessions[i];
              Represents(H.With(w, i, M.Fail(s.(reading := false, wire := ReadDone(s.wire)), "control stream closed")))
    {
      EndInputOne(i, w);
      StopOne(i, "control stream closed", H.With(w, i, M.ReadOver(w.sessions[i])));
    }

    method EndInputOne(i: nat, ghost w: H.World)
      requires Represents(w) && i < |sessions| && w.sessions[i].wire.readsOut > 0
      modifies sessions[i]
      ensures Represents(H.With(w, i, M.ReadOver(w.sessions[i])))
    {
      sessions[i].EndOfInput(w.sessions[i]);
    }

    method Admit(i: nat, input: Control, ghost w: H.World)
      requires Represents(w) && i < |sessions|
      modifies this`joined, sessions[i], sessions[i].output
      ensures Represents(H.Admit(w, i, input))
    {
      if !input.Join? || !input.accept || joined >= config.fanout {
        StopOne(i, "join required or recipient limit", w);
      } else {
        AdmitOne(i, w);
      }
    }

    method Forward(i: nat, request: nat, data: Bytes, now: int, ghost w: H.World)
      requires Represents(w) && i < |sessions| && H.HubInv(w.hub)
      modifies this`sequence, this`log, this`revision, this`values, this`schedule, ring, stamps, Bodies()
      ensures Represents(H.Forward(w, i, request, data, now))
    {
      Covers(i);
      if request == 0 || |data| > 1024 {
        StopOne(i, "invalid publish", w);
        return;
      }
      var accepted := Apply(Catalog, data, now, w);
      AnswerOne(i, if accepted then Accepted(request) else Rejected(request), H.Apply(w, Catalog, data, now));
    }

    method Complete(i: nat, reported: nat, ghost w: H.World)
      requires Represents(w) && i < |sessions|
      modifies sessions[i], sessions[i].output
      ensures var s := w.sessions[i];
              var t := if s.drained != Some(reported) then M.Fail(s, "invalid final progress")
                       else M.Reply(s, Completed(H.Summary(s, reported)));
              Represents(H.With(w, i, t))
    {
      if sessions[i].drained != Some(reported) {
        StopOne(i, "invalid final progress", w);
      } else {
        var report := sessions[i].Summarize(reported, w.sessions[i]);
        AnswerOne(i, Completed(report), w);
      }
    }

    method Advance(i: nat, reported: nat, final: bool, now: int, ghost w: H.World)
      requires Represents(w) && i < |sessions| && |w.sessions[i].histogram| == BUCKETS
      requires w.hub.revision == |w.hub.schedule|
      modifies sessions[i], sessions[i].output, sessions[i].latency
      ensures Represents(H.With(w, i, H.Advance(w.hub, w.sessions[i], reported, final, now)))
    {
      if final {
        Complete(i, reported, w);
      } else if reported <= sessions[i].lastProgress || reported > revision {
        StopOne(i, "invalid progress revision", w);
      } else {
        ObserveOne(i, reported, now, w);
      }
    }

    /** The handling of one control message of session i. */
    method HandleControl(i: nat, input: Control, now: int, ghost w: H.World)
      requires Represents(w) && i < |w.sessions| && H.HubInv(w.hub) && |w.sessions[i].histogram| == BUCKETS
      modifies Footprint()
      ensures Represents(H.Handle(w, i, input, now)) && sessions == old(sessions)
    {
      Covers(i);
      if !sessions[i].joined {
        Admit(i, input, w);
      } else {
        HandleJoined(i, input, now, w);
      }
    }

    method HandleJoined(i: nat, input: Control, now: int, ghost w: H.World)
      requires Represents(w) && i < |w.sessions| && H.HubInv(w.hub) && |w.sessions[i].histogram| == BUCKETS
      requires w.sessions[i].joined
      modifies Footprint()
      ensures Represents(H.Handle(w, i, input, now)) && sessions == old(sessions)
    {
      if input.Publish? {
        HandlePublish(i, input, now, w);
      } else {
        Covers(i);
        HandleOwn(i, input, now, w);
      }
    }

    /** A publication concerns every session. */
    method HandlePublish(i: nat, input: Control, now: int, ghost w: H.World)
      requires Represents(w) && i < |w.sessions| && H.HubInv(w.hub) && |w.sessions[i].histogram| == BUCKETS
      requires w.sessions[i].joined && input.Publish?
      modifies Footprint()
      ensures Represents(H.Handle(w, i, input, now)) && sessions == old(sessions)
    {
      Forward(i, input.request, input.data, now, w);
    }

    /** Messages that concern the joined session alone. */
    method HandleOwn(i: nat, input: Control, now: int, ghost w: H.World)
      requires Represents(w) && i < |w.sessions| && H.HubInv(w.hub) && |w.sessions[i].histogram| == BUCKETS
      requires w.sessions[i].joined && !input.Publish?
      modifies sessions[i], sessions[i].output, sessions[i].latency
      ensures Represents(H.Handle(w, i, input, now))
    {
      if input.Ping? {
        AnswerOne(i, Pong(input.ping), w);
      } else if input.Progress? {
        Advance(i, input.revision, input.final, now, w);
      } else {
        StopOne(i, "invalid control", w);
      }
    }

    method OnReadDone(i: nat, ok: bool, input: Control, now: int, ghost w: H.World)
      requires Represents(w) && H.Invariant(w) && i < |sessions| && w.sessions[i].wire.readsOut > 0
      requires |w.sessions[i].histogram| == BUCKETS
      modifies Footprint()
      ensures Represents(H.ReadCompleted(w, i, ok, input, now)) && sessions == old(sessions)
    {
      Covers(i);
      if !ok {
        HangUpOne(i, w);
        return;
      }
      ReceiveOne(i, w);
      H.TakeOver(w, i);
      ghost var taken := H.With(w, i, M.Receive(w.sessions[i]));
      HandleControl(i, input, now, taken);
      ResumeOne(i, H.Handle(taken, i, input, now));
    }
  }

  lemma {:induction false} HolderBound(n: nat, size: nat, slot: nat)
    requires size > 0
    ensures Slots.Holder(n, size, slot) <= n
  {
    if n > 0 {
      HolderBound(n - 1, size, slot);
    }
  }
}
