/** All writers of a fixed-rate run together, their operations interleaved in any way. */
module WriterRuns {
  import opened Modular
  import opened Routing
  import opened Schedule

  /** One write as the system under load sees it. */
  datatype Operation = Operation(index: nat, record: nat, version: nat)

  /** Operations each writer has done, the shared versions, and everything written so far. */
  datatype State = State(done: seq<nat>, versions: seq<nat>, log: seq<Operation>)

  function Start(l: Load): State {
    State(seq(l.writers, _ => 0), seq(l.records, _ => 1), [])
  }

  /** The global index of a writer's operation. */
  function Index(writers: nat, operation: nat, writer: nat): nat {
    operation * writers + writer
  }

  /** The loop condition of a writer. */
  predicate Enabled(l: Load, total: nat, s: State, writer: nat) {
    writer < |s.done| && Index(l.writers, s.done[writer], writer) < total
  }

  /** What a writer does next: the next of its records, one version higher. */
  function NextOperation(l: Load, s: State, writer: nat): Operation
    requires l.Checked() && writer < |s.done| && RecordAt(l, writer, s.done[writer]) < |s.versions|
  {
    var record := RecordAt(l, writer, s.done[writer]);
    Operation(Index(l.writers, s.done[writer], writer), record, s.versions[record] + 1)
  }

  function Perform(s: State, writer: nat, op: Operation): State
    requires writer < |s.done| && op.record < |s.versions|
  {
    State(s.done[writer := s.done[writer] + 1], s.versions[op.record := op.version], s.log + [op])
  }

  function Step(l: Load, s: State, writer: nat): State
    requires l.Checked() && writer < |s.done| && RecordAt(l, writer, s.done[writer]) < |s.versions|
  {
    Perform(s, writer, NextOperation(l, s, writer))
  }

  /** The versions written to a record, in order. */
  function Written(log: seq<Operation>, record: nat): seq<nat> {
    if log == [] then []
    else
      var last := log[|log| - 1];
      Written(log[..|log| - 1], record) + if last.record == record then [last.version] else []
  }

  ghost predicate Performed(log: seq<Operation>, index: nat) {
    exists p :: 0 <= p < |log| && log[p].index == index
  }

  ghost predicate Done(done: seq<nat>, index: nat)
    requires |done| > 0
  {
    index / |done| < done[index % |done|]
  }

  /** The operations performed are those the writers have passed, each once. */
  ghost predicate Indexed(done: seq<nat>, log: seq<Operation>) {
    && |done| > 0
    && (forall index: nat :: Performed(log, index) <==> Done(done, index))
    && (forall p, q :: 0 <= p < q < |log| ==> log[p].index != log[q].index)
  }

  /** Versions rise by one from the initial version. */
  ghost predicate Rising(versions: seq<nat>, log: seq<Operation>, record: nat)
    requires record < |versions|
  {
    && versions[record] == 1 + |Written(log, record)|
    && forall k :: 0 <= k < |Written(log, record)| ==> Written(log, record)[k] == 2 + k
  }

  ghost predicate AllRising(versions: seq<nat>, log: seq<Operation>) {
    forall record: nat {:trigger versions[record]} :: record < |versions| ==> Rising(versions, log, record)
  }

  ghost predicate AllCounted(l: Load, done: seq<nat>, versions: seq<nat>)
    requires l.Checked()
  {
    && |done| == l.writers && |versions| == l.records
    && forall w {:trigger done[w]} :: 0 <= w < |done| ==> Counted(l, w, done[w], versions)
  }

  /** No writer has started an operation beyond the total. */
  ghost predicate Bounded(total: nat, done: seq<nat>) {
    forall w {:trigger done[w]} :: 0 <= w < |done| && done[w] > 0 ==> Index(|done|, done[w] - 1, w) < total
  }

  ghost predicate Invariant(l: Load, total: nat, s: State)
    requires l.Checked()
  {
    && AllCounted(l, s.done, s.versions) && Indexed(s.done, s.log)
    && AllRising(s.versions, s.log) && Bounded(total, s.done)
  }

  lemma StartCounted(l: Load, done: seq<nat>, versions: seq<nat>)
    requires l.Checked() && |done| == l.writers && |versions| == l.records
    requires (forall w :: 0 <= w < |done| ==> done[w] == 0) && (forall r :: 0 <= r < |versions| ==> versions[r] == 1)
    ensures AllCounted(l, done, versions)
  {
    forall w | 0 <= w < |done|
      ensures Counted(l, w, done[w], versions)
    {
      InitialVersions(l, w, versions);
    }
  }

  lemma StartIndexed(done: seq<nat>)
    requires |done| > 0 && forall w :: 0 <= w < |done| ==> done[w] == 0
    ensures Indexed(done, [])
  {
    forall index: nat
      ensures !Done(done, index)
    {
      assert 0 <= index % |done| < |done|;
    }
  }

  lemma StartIsSound(l: Load, total: nat)
    requires l.Checked()
    ensures Invariant(l, total, Start(l))
  {
    StartCounted(l, Start(l).done, Start(l).versions);
    StartIndexed(Start(l).done);
    assert forall record: nat :: record < l.records ==> Rising(Start(l).versions, [], record);
  }

  /** A write leaves the records of every other writer alone. */
  lemma OthersCounted(l: Load, writer: nat, other: nat, n: nat, versions: seq<nat>, operation: nat, v: nat)
    requires l.Checked() && writer < l.writers && other != writer && Counted(l, other, n, versions)
    ensures RecordAt(l, writer, operation) < |versions|
    ensures Counted(l, other, n, versions[RecordAt(l, writer, operation) := v])
  {
    RecordsAreDisjoint(l, writer, operation);
    var record := RecordAt(l, writer, operation);
    forall j: nat | j < Share(l)
      ensures Own(l, other, j) < |versions| && Own(l, other, j) != record
    {
      OwnRecord(l, other, j);
    }
  }

  lemma CountedStep(l: Load, done: seq<nat>, versions: seq<nat>, writer: nat, record: nat)
    requires l.Checked() && AllCounted(l, done, versions) && writer < |done|
    requires record == RecordAt(l, writer, done[writer])
    ensures record < |versions|
    ensures AllCounted(l, done[writer := done[writer] + 1], versions[record := versions[record] + 1])
  {
    CountOne(l, writer, done[writer], versions);
    var done', versions' := done[writer := done[writer] + 1], versions[record := versions[record] + 1];
    forall w | 0 <= w < |done'|
      ensures Counted(l, w, done'[w], versions')
    {
      assert Counted(l, w, done[w], versions);
      if w != writer {
        OthersCounted(l, writer, w, done[w], versions, done[writer], versions[record] + 1);
      }
    }
  }

  lemma PerformedStep(log: seq<Operation>, op: Operation, index: nat)
    ensures Performed(log + [op], index) <==> Performed(log, index) || index == op.index
  {
    if Performed(log, index) {
      var p :| 0 <= p < |log| && log[p].index == index;
      assert (log + [op])[p].index == index;
    }
    if index == op.index {
      assert (log + [op])[|log|].index == index;
    }
  }

  /** Dividing a global index gives the operation and the writer back. */
  lemma IndexParts(writers: nat, operation: nat, writer: nat)
    requires writer < writers
    ensures Index(writers, operation, writer) / writers == operation
    ensures Index(writers, operation, writer) % writers == writer
  {
    DivMod(Index(writers, operation, writer), writers, operation, writer);
  }

  lemma DoneStep(done: seq<nat>, writer: nat, index: nat)
    requires writer < |done|
    ensures Done(done[writer := done[writer] + 1], index) <==>
            Done(done, index) || index == Index(|done|, done[writer], writer)
  {
    IndexParts(|done|, done[writer], writer);
    var w, n := index % |done|, index / |done|;
    assert index == Index(|done|, n, w) by {
      DivModIdentity(index, |done|);
    }
  }

  lemma IndexedStep(done: seq<nat>, log: seq<Operation>, writer: nat, op: Operation)
    requires Indexed(done, log) && writer < |done| && op.index == Index(|done|, done[writer], writer)
    ensures Indexed(done[writer := done[writer] + 1], log + [op])
  {
    var done', log' := done[writer := done[writer] + 1], log + [op];
    forall index: nat
      ensures Performed(log', index) <==> Done(done', index)
    {
      PerformedStep(log, op, index);
      DoneStep(done, writer, index);
    }
    IndexParts(|done|, done[writer], writer);
    assert !Done(done, op.index);
    assert !Performed(log, op.index);
  }

  lemma RisingStep(versions: seq<nat>, log: seq<Operation>, op: Operation, record: nat)
    requires record < |versions| && op.record < |versions| && op.version == versions[op.record] + 1
    requires Rising(versions, log, record)
    ensures Rising(versions[op.record := op.version], log + [op], record)
  {
    assert (log + [op])[..|log|] == log;
  }

  lemma AllRisingStep(versions: seq<nat>, log: seq<Operation>, op: Operation)
    requires AllRising(versions, log) && op.record < |versions| && op.version == versions[op.record] + 1
    ensures AllRising(versions[op.record := op.version], log + [op])
  {
    var versions', log' := versions[op.record := op.version], log + [op];
    forall record: nat | record < |versions|
      ensures Rising(versions', log', record)
    {
      assert versions[record] >= 0;
      RisingStep(versions, log, op, record);
    }
  }

  lemma BoundedStep(total: nat, done: seq<nat>, writer: nat)
    requires Bounded(total, done) && writer < |done| && Index(|done|, done[writer], writer) < total
    ensures Bounded(total, done[writer := done[writer] + 1])
  {
  }

  /** Every operation of every writer keeps the invariant. */
  lemma StepKeeps(l: Load, total: nat, s: State, writer: nat)
    requires l.Checked() && Invariant(l, total, s) && Enabled(l, total, s, writer)
    ensures RecordAt(l, writer, s.done[writer]) < |s.versions|
    ensures Invariant(l, total, Step(l, s, writer))
  {
    CountedStep(l, s.done, s.versions, writer, RecordAt(l, writer, s.done[writer]));
    var op := NextOperation(l, s, writer);
    IndexedStep(s.done, s.log, writer, op);
    AllRisingStep(s.versions, s.log, op);
    BoundedStep(total, s.done, writer);
  }

  ghost predicate Executable(l: Load, total: nat, s: State, schedule: seq<nat>)
    requires l.Checked() && Invariant(l, total, s)
    decreases |schedule|
  {
    schedule != [] ==>
      && Enabled(l, total, s, schedule[0])
      && (StepKeeps(l, total, s, schedule[0]); Executable(l, total, Step(l, s, schedule[0]), schedule[1..]))
  }

  ghost function Execute(l: Load, total: nat, s: State, schedule: seq<nat>): (t: State)
    requires l.Checked() && Invariant(l, total, s) && Executable(l, total, s, schedule)
    ensures Invariant(l, total, t)
    decreases |schedule|
  {
    if schedule == [] then s
    else
      StepKeeps(l, total, s, schedule[0]);
      Execute(l, total, Step(l, s, schedule[0]), schedule[1..])
  }

  ghost predicate Run(l: Load, total: nat, schedule: seq<nat>) {
    l.Checked() && (StartIsSound(l, total); Executable(l, total, Start(l), schedule))
  }

  ghost function After(l: Load, total: nat, schedule: seq<nat>): State
    requires Run(l, total, schedule)
  {
    StartIsSound(l, total);
    Execute(l, total, Start(l), schedule)
  }

  /** No writer may go on. */
  ghost predicate Finished(l: Load, total: nat, s: State) {
    forall w: nat {:trigger s.done[w]} :: w < |s.done| ==> !Enabled(l, total, s, w)
  }

  lemma DoneBelow(total: nat, done: seq<nat>, index: nat)
    requires |done| > 0 && Bounded(total, done)
    requires forall w: nat {:trigger done[w]} :: w < |done| ==> Index(|done|, done[w], w) >= total
    ensures Done(done, index) <==> index < total
  {
    var w, n := index % |done|, index / |done|;
    assert index == Index(|done|, n, w) by {
      DivModIdentity(index, |done|);
    }
    if done[w] > 0 {
      IndexOrder(|done|, n, done[w] - 1, w);
    }
    IndexOrder(|done|, done[w], n, w);
  }

  lemma IndexOrder(writers: nat, a: nat, b: nat, writer: nat)
    ensures a <= b ==> Index(writers, a, writer) <= Index(writers, b, writer)
  {
    MulOrder(a, b, writers);
  }

  /** However the writers interleave, they do every operation below the total once and nothing else. */
  lemma EveryIndexOnce(l: Load, total: nat, schedule: seq<nat>)
    requires Run(l, total, schedule) && Finished(l, total, After(l, total, schedule))
    ensures var log := After(l, total, schedule).log;
            && (forall index: nat :: Performed(log, index) <==> index < total)
            && (forall p, q :: 0 <= p < q < |log| ==> log[p].index != log[q].index)
  {
    var s := After(l, total, schedule);
    forall index: nat
      ensures Done(s.done, index) <==> index < total
    {
      DoneBelow(total, s.done, index);
    }
  }

  lemma OwnVersion(l: Load, done: seq<nat>, versions: seq<nat>, writer: nat, j: nat)
    requires l.Checked() && AllCounted(l, done, versions) && writer < |done| && j < Share(l)
    ensures Own(l, writer, j) < |versions|
    ensures versions[Own(l, writer, j)] == 1 + CountRemainder(done[writer], Share(l), j)
  {
    assert Counted(l, writer, done[writer], versions);
    OwnRecord(l, writer, j);
  }

  lemma WritesOfRecord(l: Load, s: State, writer: nat, j: nat)
    requires l.Checked() && AllCounted(l, s.done, s.versions) && AllRising(s.versions, s.log)
    requires writer < |s.done| && j < Share(l)
    ensures var record := Own(l, writer, j);
            var written := Written(s.log, record);
            && (forall k :: 0 <= k < |written| ==> written[k] == 2 + k)
            && record < |s.versions| && s.versions[record] == 1 + |written|
            && |written| == CountRemainder(s.done[writer], Share(l), j)
  {
    OwnVersion(l, s.done, s.versions, writer, j);
    assert Rising(s.versions, s.log, Own(l, writer, j));
  }

  /**
   * At every moment of every interleaving, the versions written to a record (number j of a writer's
   * own) are 2, 3, 4, ... in this order, the last of them is the counter the final check compares
   * with, and their number is the number of turns its writer has given the record.
   */
  lemma VersionsRiseByOne(l: Load, total: nat, schedule: seq<nat>, writer: nat, j: nat)
    requires Run(l, total, schedule) && writer < |After(l, total, schedule).done| && j < Share(l)
    ensures var s := After(l, total, schedule);
            var record := Own(l, writer, j);
            var written := Written(s.log, record);
            && (forall k :: 0 <= k < |written| ==> written[k] == 2 + k)
            && record < |s.versions| && s.versions[record] == 1 + |written|
            && |written| == CountRemainder(s.done[writer], Share(l), j)
  {
    WritesOfRecord(l, After(l, total, schedule), writer, j);
  }

  /** The record and the version of an operation are fixed by its global index. */
  ghost predicate Planned(l: Load, op: Operation)
    requires l.Checked()
  {
    var share := l.records / l.writers;
    && share > 0
    && op.record == op.index % l.writers + op.index / l.writers % share * l.writers
    && op.version == 2 + op.index / l.writers / share
  }

  ghost predicate AllPlanned(l: Load, log: seq<Operation>)
    requires l.Checked()
  {
    forall p :: 0 <= p < |log| ==> Planned(l, log[p])
  }

  lemma NextIsPlanned(l: Load, s: State, writer: nat)
    requires l.Checked() && AllCounted(l, s.done, s.versions) && writer < |s.done|
    ensures RecordAt(l, writer, s.done[writer]) < |s.versions| && Planned(l, NextOperation(l, s, writer))
  {
    assert Share(l) == l.records / l.writers >= 1;
    assert Counted(l, writer, s.done[writer], s.versions);
    CountOne(l, writer, s.done[writer], s.versions);
    IndexParts(l.writers, s.done[writer], writer);
  }

  lemma {:induction false} PlannedFrom(l: Load, total: nat, s: State, schedule: seq<nat>)
    requires l.Checked() && Invariant(l, total, s) && Executable(l, total, s, schedule) && AllPlanned(l, s.log)
    ensures AllPlanned(l, Execute(l, total, s, schedule).log)
    decreases |schedule|
  {
    if schedule != [] {
      StepKeeps(l, total, s, schedule[0]);
      NextIsPlanned(l, s, schedule[0]);
      PlannedFrom(l, total, Step(l, s, schedule[0]), schedule[1..]);
    }
  }

  /** At every moment of every interleaving each operation done has the record and version of its index. */
  lemma InterleavingIsIrrelevant(l: Load, total: nat, schedule: seq<nat>)
    requires Run(l, total, schedule)
    ensures AllPlanned(l, After(l, total, schedule).log)
  {
    StartIsSound(l, total);
    PlannedFrom(l, total, Start(l), schedule);
  }
}
