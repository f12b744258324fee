/** The final check of a fixed-rate run, told of what the writers wrote. */
module FinalRun {
  import opened Common
  import opened Modular
  import opened Routing
  import opened Schedule
  import opened WriterRuns
  import FinalView
  import Words

  const RATE := 100000
  const SECONDS := 30

  function OptionsOf(l: Load, bytes: nat): FinalView.Options {
    FinalView.Options(l.records, l.groups, l.fanout, bytes)
  }

  /** The payload of the last write to a record, or the content it was created with. */
  function LastPayload(bytes: nat, log: seq<Operation>, record: nat): Bytes
    requires bytes >= 16
  {
    if log == [] then FinalView.Content(bytes, record, 1)
    else if Last(log).record == record then FinalView.Content(bytes, record, Last(log).version)
    else LastPayload(bytes, log[..|log| - 1], record)
  }

  /** The last payloads of the first n records that belong to a group, in record order. */
  ghost function Wanted(o: FinalView.Options, log: seq<Operation>, group: nat, n: nat): seq<Bytes>
    requires o.Checked()
  {
    if n == 0 then []
    else Wanted(o, log, group, n - 1) +
         (if (n - 1) % o.groups == group then [LastPayload(o.bytes, log, n - 1)] else [])
  }

  /** Every view is, in some order, exactly the last payloads written to the records of its group. */
  ghost predicate AllHoldLast(o: FinalView.Options, log: seq<Operation>, views: seq<seq<Bytes>>)
    requires o.Checked()
  {
    forall w {:trigger views[w]} :: 0 <= w < |views| ==>
      multiset(views[w]) == multiset(Wanted(o, log, FinalView.Group(o, w), o.records))
  }

  lemma {:induction false} LastOfWritten(bytes: nat, log: seq<Operation>, record: nat)
    requires bytes >= 16
    ensures LastPayload(bytes, log, record) ==
            FinalView.Content(bytes, record, if Written(log, record) == [] then 1 else Last(Written(log, record)))
  {
    if log != [] && Last(log).record != record {
      LastOfWritten(bytes, log[..|log| - 1], record);
    }
  }

  lemma CounterIsLast(bytes: nat, versions: seq<nat>, log: seq<Operation>, record: nat)
    requires bytes >= 16 && record < |versions| && Rising(versions, log, record)
    ensures LastPayload(bytes, log, record) == FinalView.Content(bytes, record, versions[record])
  {
    LastOfWritten(bytes, log, record);
  }

  lemma {:induction false} LatestIsWanted(
    o: FinalView.Options, versions: seq<nat>, log: seq<Operation>, group: nat, n: nat)
    requires o.Checked() && n <= |versions| && AllRising(versions, log)
    ensures FinalView.Latest(o, versions, group, n) == Wanted(o, log, group, n)
  {
    if n > 0 {
      LatestIsWanted(o, versions, log, group, n - 1);
      assert Rising(versions, log, n - 1) by {
        assert versions[n - 1] >= 0;
      }
      CounterIsLast(o.bytes, versions, log, n - 1);
    }
  }

  // ---- counters fit ----

  lemma {:induction false} CountAtMost(m: nat, n: nat, k: nat)
    requires n > 0
    ensures CountRemainder(m, n, k) <= m
  {
    if m > 0 {
      CountAtMost(m - 1, n, k);
    }
  }

  lemma DoneAtMost(total: nat, done: seq<nat>, w: nat)
    requires Bounded(total, done) && w < |done|
    ensures done[w] <= total
  {
    if done[w] > 0 {
      MulOrder(|done|, 1, done[w] - 1);
      assert Index(|done|, done[w] - 1, w) < total;
    }
  }

  lemma VersionAtMost(l: Load, total: nat, s: State, record: nat)
    requires l.Checked() && Invariant(l, total, s) && record < |s.versions|
    ensures s.versions[record] <= 1 + total
  {
    var w := record % l.writers;
    ShareTimes(l);
    var j := RecordIsOwn(l, w, record, Share(l));
    OwnVersion(l, s.done, s.versions, w, j);
    CountAtMost(s.done[w], Share(l), j);
    DoneAtMost(total, s.done, w);
  }

  /**
   * After a fixed-rate run, however its writers interleaved, the final check accepts exactly when every
   * subscription holds, in some order and nothing else, the last payload that was written to each
   * record of its group.
   */
  method VerifyRun(l: Load, bytes: nat, ghost total: nat, ghost schedule: seq<nat>, versions: seq<nat>,
                   views: seq<seq<Bytes>>)
    returns (ok: bool)
    requires 16 <= bytes <= 4096 && total <= RATE * SECONDS && Run(l, total, schedule)
    requires versions == After(l, total, schedule).versions && |views| == OptionsOf(l, bytes).Watchers()
    ensures OptionsOf(l, bytes).Checked()
    ensures ok <==> AllHoldLast(OptionsOf(l, bytes), After(l, total, schedule).log, views)
  {
    ghost var s := After(l, total, schedule);
    var o := OptionsOf(l, bytes);
    CountersFit(l, total, s, o);
    ok := FinalView.Verify(o, versions, views);
    ExactIsLast(o, versions, s.log, views);
  }

  lemma CountersFit(l: Load, total: nat, s: State, o: FinalView.Options)
    requires l.Checked() && Invariant(l, total, s) && total <= RATE * SECONDS && o.records == l.records
    ensures FinalView.Counters(o, s.versions)
  {
    forall r | 0 <= r < |s.versions|
      ensures s.versions[r] < Words.RANGE
    {
      VersionAtMost(l, total, s, r);
    }
  }

  lemma ExactIsLast(o: FinalView.Options, versions: seq<nat>, log: seq<Operation>, views: seq<seq<Bytes>>)
    requires o.Checked() && FinalView.Counters(o, versions) && AllRising(versions, log)
    ensures FinalView.AllExact(o, versions, views) <==> AllHoldLast(o, log, views)
  {
    forall w | 0 <= w < |views|
      ensures FinalView.Exact(o, versions, views[w], FinalView.Group(o, w)) <==>
              multiset(views[w]) == multiset(Wanted(o, log, FinalView.Group(o, w), o.records))
    {
      LatestIsWanted(o, versions, log, FinalView.Group(o, w), o.records);
    }
  }
}
