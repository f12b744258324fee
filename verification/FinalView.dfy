/** The final check of a baseline run: what every subscription holds once all writers have stopped. */
module FinalView {
  import opened Common
  import opened Modular
  import Words

  datatype Options = Options(records: nat, groups: nat, fanout: nat, bytes: nat)
  {
    /** The part of the parameter check this module depends on. */
    predicate Checked() {
      8 <= records <= 1024 && 1 <= groups <= 8 && 1 <= fanout <= 32 && 16 <= bytes <= 4096
    }

    function Watchers(): nat {
      groups * fanout
    }
  }

  const FILLER: Byte := 42

  /** The payload of a record at a version. */
  function Content(bytes: nat, record: nat, version: nat): (s: Bytes)
    requires bytes >= 16
    ensures |s| == bytes
  {
    Words.Encode(record, 8) + Words.Encode(version, 8) + seq(bytes - 16, _ => FILLER)
  }

  /** The first word of a payload; a payload too short to hold it is refused before it is read. */
  function RecordOf(value: Bytes): nat {
    if |value| < 16 then 0 else Words.Decode(value[..8])
  }

  function VersionOf(value: Bytes): nat {
    if |value| < 16 then 0 else Words.Decode(value[8..16])
  }

  lemma ContentFields(bytes: nat, record: nat, version: nat)
    requires bytes >= 16 && record < Words.RANGE && version < Words.RANGE
    ensures RecordOf(Content(bytes, record, version)) == record
    ensures VersionOf(Content(bytes, record, version)) == version
  {
    var c := Content(bytes, record, version);
    Words.WordRange();
    assert c[..8] == Words.Encode(record, 8);
    assert c[8..16] == Words.Encode(version, 8);
    Words.DecodeEncode(record, 8);
    Words.DecodeEncode(version, 8);
  }

  /** A payload with filler after its two words is the content of exactly those words. */
  lemma ContentOfFields(value: Bytes)
    requires |value| >= 16 && forall i :: 16 <= i < |value| ==> value[i] == FILLER
    ensures value == Content(|value|, RecordOf(value), VersionOf(value))
  {
    Words.EncodeDecode(value[..8]);
    Words.EncodeDecode(value[8..16]);
    assert value[16..] == seq(|value| - 16, _ => FILLER);
    assert value == value[..8] + value[8..16] + value[16..];
  }

  /** Versions fit the counters they are kept in. */
  ghost predicate Counters(o: Options, versions: seq<nat>) {
    |versions| == o.records && forall r :: 0 <= r < |versions| ==> versions[r] < Words.RANGE
  }

  // ---- what a correct view is ----

  /** The group a subscription belongs to: fanout subscriptions per group. */
  function Group(o: Options, w: nat): nat
    requires o.fanout > 0
  {
    if w < o.fanout then 0 else 1 + Group(o, w - o.fanout)
  }

  lemma {:induction false} GroupIsQuotient(o: Options, w: nat)
    requires o.fanout > 0
    ensures Group(o, w) == w / o.fanout
  {
    if w < o.fanout {
      DivMod(w, o.fanout, 0, w);
    } else {
      GroupIsQuotient(o, w - o.fanout);
      var q, r := (w - o.fanout) / o.fanout, (w - o.fanout) % o.fanout;
      Distribute(q, 1, o.fanout);
      DivMod(w, o.fanout, q + 1, r);
    }
  }

  ghost predicate InGroup(o: Options, record: nat, group: nat)
    requires o.groups > 0
  {
    record < o.records && record % o.groups == group
  }

  /** The latest payloads of the first n records that belong to a group, in record order. */
  ghost function Latest(o: Options, versions: seq<nat>, group: nat, n: nat): seq<Bytes>
    requires o.Checked() && n <= |versions|
  {
    if n == 0 then []
    else Latest(o, versions, group, n - 1) +
         (if (n - 1) % o.groups == group then [Content(o.bytes, n - 1, versions[n - 1])] else [])
  }

  /** The view is, in some order, exactly the latest payloads of its group. */
  ghost predicate Exact(o: Options, versions: seq<nat>, view: seq<Bytes>, group: nat)
    requires o.Checked() && Counters(o, versions)
  {
    multiset(view) == multiset(Latest(o, versions, group, o.records))
  }

  ghost predicate AllExact(o: Options, versions: seq<nat>, views: seq<seq<Bytes>>)
    requires o.Checked() && Counters(o, versions)
  {
    forall w {:trigger views[w]} :: 0 <= w < |views| ==> Exact(o, versions, views[w], Group(o, w))
  }

  // ---- what the checker looks at ----

  /** One delivered payload passes its checks. */
  predicate Good(o: Options, versions: seq<nat>, group: nat, value: Bytes)
    requires o.Checked() && |versions| == o.records
  {
    && |value| == o.bytes
    && RecordOf(value) < o.records
    && RecordOf(value) % o.groups == group
    && VersionOf(value) == versions[RecordOf(value)]
    && forall i :: 16 <= i < |value| ==> value[i] == FILLER
  }

  ghost predicate AllGood(o: Options, versions: seq<nat>, group: nat, view: seq<Bytes>)
    requires o.Checked() && |versions| == o.records
  {
    forall k :: 0 <= k < |view| ==> Good(o, versions, group, view[k])
  }

  /** No record is delivered twice. */
  ghost predicate Once(view: seq<Bytes>) {
    forall i, j :: 0 <= i < j < |view| ==> RecordOf(view[i]) != RecordOf(view[j])
  }

  ghost predicate Delivers(view: seq<Bytes>, record: nat) {
    exists k :: 0 <= k < |view| && RecordOf(view[k]) == record
  }

  ghost predicate Full(o: Options, group: nat, view: seq<Bytes>)
    requires o.groups > 0
  {
    forall r :: 0 <= r < o.records && InGroup(o, r, group) ==> Delivers(view, r)
  }

  // ---- lists without repetition ----

  /** Same elements and no repetition on either side: a permutation. */
  lemma SameElements<T(!new)>(a: seq<T>, b: seq<T>)
    requires Distinct(a) && Distinct(b) && forall x :: x in a <==> x in b
    ensures multiset(a) == multiset(b)
  {
    forall x
      ensures multiset(a)[x] == multiset(b)[x]
    {
      DistinctCounts(a, x);
      DistinctCounts(b, x);
    }
  }

  lemma PermutationDistinct<T(!new)>(a: seq<T>, b: seq<T>)
    requires Distinct(b) && multiset(a) == multiset(b)
    ensures Distinct(a) && forall x :: x in a <==> x in b
  {
    forall i, j | 0 <= i < j < |a|
      ensures a[i] != a[j]
    {
      if a[i] == a[j] {
        RepeatedCounts(a, i, j);
        DistinctCounts(b, a[i]);
        assert false;
      }
    }
    forall x
      ensures x in a <==> x in b
    {
      assert x in a <==> x in multiset(a);
      assert x in b <==> x in multiset(b);
    }
  }

  // ---- the checks of one view mean that it is exact ----

  lemma {:induction false} LatestGood(o: Options, versions: seq<nat>, group: nat, n: nat)
    requires o.Checked() && Counters(o, versions) && n <= o.records
    ensures forall k :: 0 <= k < |Latest(o, versions, group, n)| ==>
              && Good(o, versions, group, Latest(o, versions, group, n)[k])
              && RecordOf(Latest(o, versions, group, n)[k]) < n
  {
    if n > 0 {
      LatestGood(o, versions, group, n - 1);
      LatestContent(o, versions, n - 1);
    }
  }

  lemma {:induction false} LatestDistinct(o: Options, versions: seq<nat>, group: nat, n: nat)
    requires o.Checked() && Counters(o, versions) && n <= o.records
    ensures Distinct(Latest(o, versions, group, n))
  {
    if n > 0 {
      var front := Latest(o, versions, group, n - 1);
      LatestDistinct(o, versions, group, n - 1);
      LatestGood(o, versions, group, n - 1);
      LatestContent(o, versions, n - 1);
      assert forall k :: 0 <= k < |front| ==> RecordOf(front[k]) < n - 1;
    }
  }

  lemma {:induction false} LatestHas(o: Options, versions: seq<nat>, group: nat, n: nat, r: nat)
    requires o.Checked() && Counters(o, versions) && r < n <= o.records && r % o.groups == group
    ensures Content(o.bytes, r, versions[r]) in Latest(o, versions, group, n)
  {
    if r < n - 1 {
      LatestHas(o, versions, group, n - 1, r);
    }
  }

  lemma LatestContent(o: Options, versions: seq<nat>, r: nat)
    requires o.Checked() && Counters(o, versions) && r < o.records
    ensures var c := Content(o.bytes, r, versions[r]);
            RecordOf(c) == r && Good(o, versions, r % o.groups, c)
  {
    ContentFields(o.bytes, r, versions[r]);
  }

  /** A payload that passes its checks is the latest payload of its record. */
  lemma GoodContent(o: Options, versions: seq<nat>, group: nat, value: Bytes)
    requires o.Checked() && Counters(o, versions) && Good(o, versions, group, value)
    ensures value == Content(o.bytes, RecordOf(value), versions[RecordOf(value)])
  {
    ContentOfFields(value);
  }

  lemma ExactIfChecked(o: Options, versions: seq<nat>, group: nat, view: seq<Bytes>)
    requires o.Checked() && Counters(o, versions) && AllGood(o, versions, group, view)
    requires Once(view) && Full(o, group, view)
    ensures Exact(o, versions, view, group)
  {
    var latest := Latest(o, versions, group, o.records);
    LatestGood(o, versions, group, o.records);
    LatestDistinct(o, versions, group, o.records);
    forall x
      ensures x in view <==> x in latest
    {
      if x in view {
        var k :| 0 <= k < |view| && view[k] == x;
        assert Good(o, versions, group, view[k]);
        GoodContent(o, versions, group, x);
        LatestHas(o, versions, group, o.records, RecordOf(x));
      }
      if x in latest {
        var k :| 0 <= k < |latest| && latest[k] == x;
        assert Good(o, versions, group, latest[k]);
        GoodContent(o, versions, group, x);
        var r := RecordOf(x);
        assert InGroup(o, r, group);
        assert Delivers(view, r);
        var m :| 0 <= m < |view| && RecordOf(view[m]) == r;
        GoodContent(o, versions, group, view[m]);
      }
    }
    SameElements(view, latest);
  }

  lemma CheckedIfExact(o: Options, versions: seq<nat>, group: nat, view: seq<Bytes>)
    requires o.Checked() && Counters(o, versions) && Exact(o, versions, view, group)
    ensures AllGood(o, versions, group, view) && Once(view) && Full(o, group, view)
  {
    var latest := Latest(o, versions, group, o.records);
    LatestGood(o, versions, group, o.records);
    LatestDistinct(o, versions, group, o.records);
    PermutationDistinct(view, latest);
    forall k | 0 <= k < |view|
      ensures Good(o, versions, group, view[k])
    {
      assert view[k] in latest;
      var m :| 0 <= m < |latest| && latest[m] == view[k];
      assert Good(o, versions, group, latest[m]);
    }
    forall i, j | 0 <= i < j < |view|
      ensures RecordOf(view[i]) != RecordOf(view[j])
    {
      GoodContent(o, versions, group, view[i]);
      GoodContent(o, versions, group, view[j]);
    }
    forall r | 0 <= r < o.records && InGroup(o, r, group)
      ensures Delivers(view, r)
    {
      LatestContent(o, versions, r);
      LatestHas(o, versions, group, o.records, r);
      var c := Content(o.bytes, r, versions[r]);
      assert c in view;
      var k :| 0 <= k < |view| && view[k] == c;
    }
  }

  // ---- the bitmap ----

  /** The subscription that must hold a record, given its number within the record's group. */
  function WatcherOf(o: Options, record: nat, sub: nat): nat
    requires o.groups > 0
  {
    record % o.groups * o.fanout + sub
  }

  function SlotOf(o: Options, record: nat, sub: nat): nat {
    record * o.fanout + sub
  }

  lemma SlotInRange(o: Options, record: nat, sub: nat)
    requires record < o.records && sub < o.fanout
    ensures SlotOf(o, record, sub) < o.records * o.fanout
  {
    Distribute(record, 1, o.fanout);
    MulOrder(o.records, record + 1, o.fanout);
  }

  /** A slot belongs to one record and one subscription number. */
  lemma SlotInjective(o: Options, r: nat, s: nat, r': nat, s': nat)
    requires s < o.fanout && s' < o.fanout && SlotOf(o, r, s) == SlotOf(o, r', s')
    ensures r == r' && s == s'
  {
    DivModUnique(o.fanout, r, s, r', s');
  }

  lemma WatcherFields(o: Options, w: nat)
    requires o.Checked() && w < o.Watchers()
    ensures Group(o, w) < o.groups && w == Group(o, w) * o.fanout + w % o.fanout
  {
    GroupIsQuotient(o, w);
    QuotientBound(w, o.fanout, o.groups);
  }

  lemma WatcherInRange(o: Options, r: nat, s: nat)
    requires o.Checked() && s < o.fanout
    ensures WatcherOf(o, r, s) < o.Watchers()
    ensures Group(o, WatcherOf(o, r, s)) == r % o.groups && WatcherOf(o, r, s) % o.fanout == s
  {
    var g := r % o.groups;
    DivMod(WatcherOf(o, r, s), o.fanout, g, s);
    GroupIsQuotient(o, WatcherOf(o, r, s));
    Distribute(g, 1, o.fanout);
    MulOrder(o.groups, g + 1, o.fanout);
  }

  /** Record r has been met in its subscription s, when views before w and k payloads of view w are done. */
  ghost predicate Met(o: Options, views: seq<seq<Bytes>>, w: nat, k: nat, r: nat, s: nat)
    requires o.groups > 0
  {
    var v := WatcherOf(o, r, s);
    v < |views| && ((v < w && Delivers(views[v], r)) || (v == w && k <= |views[v]| && Delivers(views[v][..k], r)))
  }

  ghost predicate Marks(o: Options, views: seq<seq<Bytes>>, w: nat, k: nat, present: seq<bool>)
    requires o.Checked()
  {
    && |present| == o.records * o.fanout
    && forall r: nat, s: nat {:trigger SlotOf(o, r, s)} :: r < o.records && s < o.fanout ==>
         (SlotInRange(o, r, s); present[SlotOf(o, r, s)] <==> Met(o, views, w, k, r, s))
  }

  lemma DeliversNext(view: seq<Bytes>, k: nat, r: nat)
    requires k < |view|
    ensures Delivers(view[..k + 1], r) <==> Delivers(view[..k], r) || RecordOf(view[k]) == r
  {
    assert view[..k + 1] == view[..k] + [view[k]];
    if Delivers(view[..k], r) {
      var m :| 0 <= m < k && RecordOf(view[..k][m]) == r;
      assert RecordOf(view[..k + 1][m]) == r;
    }
    if RecordOf(view[k]) == r {
      assert RecordOf(view[..k + 1][k]) == r;
    }
  }

  /** Setting the bit of the payload just read keeps the bitmap in step. */
  lemma MarkOne(o: Options, views: seq<seq<Bytes>>, w: nat, k: nat, present: seq<bool>)
    requires o.Checked() && |views| == o.Watchers() && w < |views| && k < |views[w]|
    requires Marks(o, views, w, k, present)
    requires RecordOf(views[w][k]) < o.records && RecordOf(views[w][k]) % o.groups == Group(o, w)
    ensures SlotOf(o, RecordOf(views[w][k]), w % o.fanout) < |present|
    ensures present[SlotOf(o, RecordOf(views[w][k]), w % o.fanout)] <==> Delivers(views[w][..k], RecordOf(views[w][k]))
    ensures Marks(o, views, w, k + 1, present[SlotOf(o, RecordOf(views[w][k]), w % o.fanout) := true])
  {
    var record, sub := RecordOf(views[w][k]), w % o.fanout;
    SlotInRange(o, record, sub);
    WatcherFields(o, w);
    assert WatcherOf(o, record, sub) == w;
    var slot := SlotOf(o, record, sub);
    var present' := present[slot := true];
    assert present[slot] <==> Met(o, views, w, k, record, sub);
    forall r: nat, s: nat | r < o.records && s < o.fanout
      ensures SlotOf(o, r, s) < |present'|
      ensures present'[SlotOf(o, r, s)] <==> Met(o, views, w, k + 1, r, s)
    {
      SlotInRange(o, r, s);
      WatcherInRange(o, r, s);
      DeliversNext(views[w], k, r);
      if SlotOf(o, r, s) == slot {
        SlotInjective(o, r, s, record, sub);
      } else {
        assert present[SlotOf(o, r, s)] <==> Met(o, views, w, k, r, s);
      }
    }
  }

  /** Nothing is lost between the end of one view and the start of the next. */
  lemma NextView(o: Options, views: seq<seq<Bytes>>, w: nat, present: seq<bool>)
    requires o.Checked() && |views| == o.Watchers() && w < |views| && Marks(o, views, w, |views[w]|, present)
    ensures Marks(o, views, w + 1, 0, present)
  {
    assert views[w][..|views[w]|] == views[w];
    forall r: nat, s: nat | r < o.records && s < o.fanout
      ensures SlotOf(o, r, s) < |present|
      ensures present[SlotOf(o, r, s)] <==> Met(o, views, w + 1, 0, r, s)
    {
      SlotInRange(o, r, s);
      assert present[SlotOf(o, r, s)] <==> Met(o, views, w, |views[w]|, r, s);
    }
  }

  ghost predicate AllBits(bits: seq<bool>) {
    forall i :: 0 <= i < |bits| ==> bits[i]
  }

  ghost predicate AllFull(o: Options, views: seq<seq<Bytes>>)
    requires o.Checked()
  {
    forall w {:trigger views[w]} :: 0 <= w < |views| ==> Full(o, Group(o, w), views[w])
  }

  /** A bitmap without a hole means that every view is full, and the other way round. */
  lemma FullBitmap(o: Options, views: seq<seq<Bytes>>, present: seq<bool>)
    requires o.Checked() && |views| == o.Watchers() && Marks(o, views, |views|, 0, present)
    ensures AllBits(present) <==> AllFull(o, views)
  {
    if AllBits(present) {
      forall w | 0 <= w < |views|
        ensures Full(o, Group(o, w), views[w])
      {
        FullView(o, views, present, w);
      }
    }
    if AllFull(o, views) {
      forall i | 0 <= i < |present|
        ensures present[i]
      {
        BitOf(o, views, present, i);
      }
    }
  }

  lemma BitOf(o: Options, views: seq<seq<Bytes>>, present: seq<bool>, i: nat)
    requires o.Checked() && |views| == o.Watchers() && Marks(o, views, |views|, 0, present) && i < |present|
    requires AllFull(o, views)
    ensures present[i]
  {
    var r, s := SlotParts(o, i);
    FullWatcher(o, views, r, s);
    MarkedBit(o, views, present, r, s);
  }

  lemma FullWatcher(o: Options, views: seq<seq<Bytes>>, r: nat, s: nat)
    requires o.Checked() && |views| == o.Watchers() && AllFull(o, views) && s < o.fanout
    ensures WatcherOf(o, r, s) < |views| && Full(o, r % o.groups, views[WatcherOf(o, r, s)])
  {
    WatcherInRange(o, r, s);
    var v := WatcherOf(o, r, s);
    assert Full(o, Group(o, v), views[v]);
  }

  lemma NoMarks(o: Options, views: seq<seq<Bytes>>, present: seq<bool>)
    requires o.Checked() && |views| == o.Watchers() && |present| == o.records * o.fanout
    requires forall i :: 0 <= i < |present| ==> !present[i]
    ensures Marks(o, views, 0, 0, present)
  {
    forall r: nat, s: nat | r < o.records && s < o.fanout
      ensures SlotOf(o, r, s) < |present| && !present[SlotOf(o, r, s)]
    {
      SlotInRange(o, r, s);
    }
  }

  lemma MarkedBit(o: Options, views: seq<seq<Bytes>>, present: seq<bool>, r: nat, s: nat)
    requires o.Checked() && |views| == o.Watchers() && Marks(o, views, |views|, 0, present)
    requires r < o.records && s < o.fanout && WatcherOf(o, r, s) < |views|
    requires Full(o, r % o.groups, views[WatcherOf(o, r, s)])
    ensures SlotOf(o, r, s) < |present| && present[SlotOf(o, r, s)]
  {
    SlotInRange(o, r, s);
    assert InGroup(o, r, r % o.groups);
    assert Delivers(views[WatcherOf(o, r, s)], r);
    assert present[SlotOf(o, r, s)] <==> Met(o, views, |views|, 0, r, s);
  }

  lemma Parts(i: nat, size: nat, m: nat) returns (q: nat, r: nat)
    requires size > 0 && i < m * size
    ensures q < m && r < size && i == q * size + r
  {
    QuotientBound(i, size, m);
    DivModIdentity(i, size);
    q, r := i / size, i % size;
  }

  lemma SlotParts(o: Options, i: nat) returns (r: nat, s: nat)
    requires o.Checked() && i < o.records * o.fanout
    ensures r < o.records && s < o.fanout && i == SlotOf(o, r, s)
  {
    r, s := Parts(i, o.fanout, o.records);
  }

  lemma FullView(o: Options, views: seq<seq<Bytes>>, present: seq<bool>, w: nat)
    requires o.Checked() && |views| == o.Watchers() && Marks(o, views, |views|, 0, present) && w < |views|
    requires AllBits(present)
    ensures Full(o, Group(o, w), views[w])
  {
    WatcherFields(o, w);
    forall r | 0 <= r < o.records && InGroup(o, r, Group(o, w))
      ensures Delivers(views[w], r)
    {
      var s := w % o.fanout;
      SlotInRange(o, r, s);
      assert WatcherOf(o, r, s) == w;
      assert present[SlotOf(o, r, s)] <==> Met(o, views, |views|, 0, r, s);
    }
  }

  ghost predicate ViewPasses(o: Options, versions: seq<nat>, group: nat, view: seq<Bytes>)
    requires o.Checked() && |versions| == o.records
  {
    AllGood(o, versions, group, view) && Once(view)
  }

  /** Check the payloads of one view and mark their records. */
  method VerifyView(o: Options, versions: seq<nat>, views: seq<seq<Bytes>>, w: nat, present: array<bool>)
    returns (ok: bool)
    requires o.Checked() && Counters(o, versions) && |views| == o.Watchers() && w < |views|
    requires Marks(o, views, w, 0, present[..])
    modifies present
    ensures ok ==> Marks(o, views, w + 1, 0, present[..]) && ViewPasses(o, versions, Group(o, w), views[w])
    ensures !ok ==> !ViewPasses(o, versions, Group(o, w), views[w])
  {
    GroupIsQuotient(o, w);
    var group := w / o.fanout;
    for k := 0 to |views[w]|
      invariant Marks(o, views, w, k, present[..])
      invariant ViewPasses(o, versions, group, views[w][..k])
    {
      var value := views[w][k];
      if !Good(o, versions, group, value) {
        return false;
      }
      var slot := SlotOf(o, RecordOf(value), w % o.fanout);
      MarkOne(o, views, w, k, present[..]);
      if present[slot] {
        RepeatedRecord(views[w], k);
        return false;
      }
      present[slot] := true;
      ExtendPass(o, versions, group, views[w], k);
    }
    NextView(o, views, w, present[..]);
    assert views[w][..|views[w]|] == views[w];
    ok := true;
  }

  lemma RepeatedRecord(view: seq<Bytes>, k: nat)
    requires k < |view| && Delivers(view[..k], RecordOf(view[k]))
    ensures !Once(view)
  {
    var m :| 0 <= m < k && RecordOf(view[..k][m]) == RecordOf(view[k]);
    assert RecordOf(view[m]) == RecordOf(view[k]);
  }

  /**
   * The final check accepts exactly when every subscription holds, in some order and nothing else,
   * the latest payload of every record of its group.
   */
  method Verify(o: Options, versions: seq<nat>, views: seq<seq<Bytes>>) returns (ok: bool)
    requires o.Checked() && Counters(o, versions) && |views| == o.Watchers()
    ensures ok <==> AllExact(o, versions, views)
  {
    var present := new bool[o.records * o.fanout](_ => false);
    NoMarks(o, views, present[..]);
    for w := 0 to |views|
      invariant Marks(o, views, w, 0, present[..])
      invariant forall v {:trigger views[v]} :: 0 <= v < w ==> ViewPasses(o, versions, Group(o, v), views[v])
    {
      var passed := VerifyView(o, versions, views, w, present);
      if !passed {
        Refused(o, versions, views, w);
        return false;
      }
    }
    FullBitmap(o, views, present[..]);
    Accepted(o, versions, views);
    ok := AllSet(present);
  }

  method AllSet(bits: array<bool>) returns (all: bool)
    ensures all <==> AllBits(bits[..])
  {
    for i := 0 to bits.Length
      invariant forall j :: 0 <= j < i ==> bits[j]
    {
      if !bits[i] {
        assert !bits[..][i];
        return false;
      }
    }
    return true;
  }

  lemma ExtendPass(o: Options, versions: seq<nat>, group: nat, view: seq<Bytes>, k: nat)
    requires o.Checked() && |versions| == o.records && k < |view|
    requires ViewPasses(o, versions, group, view[..k]) && Good(o, versions, group, view[k])
    requires !Delivers(view[..k], RecordOf(view[k]))
    ensures ViewPasses(o, versions, group, view[..k + 1])
  {
    var next := view[..k + 1];
    assert next == view[..k] + [view[k]];
    forall i, j | 0 <= i < j < |next|
      ensures RecordOf(next[i]) != RecordOf(next[j])
    {
      assert next[i] == view[..k][i];
    }
  }

  /** An exact view passes every check, so a failed check means a wrong view. */
  lemma Refused(o: Options, versions: seq<nat>, views: seq<seq<Bytes>>, w: nat)
    requires o.Checked() && Counters(o, versions) && w < |views|
    ensures AllExact(o, versions, views) ==>
              ViewPasses(o, versions, Group(o, w), views[w]) && Full(o, Group(o, w), views[w])
  {
    if AllExact(o, versions, views) {
      assert Exact(o, versions, views[w], Group(o, w));
      CheckedIfExact(o, versions, Group(o, w), views[w]);
    }
  }

  lemma Accepted(o: Options, versions: seq<nat>, views: seq<seq<Bytes>>)
    requires o.Checked() && Counters(o, versions)
    requires forall v {:trigger views[v]} :: 0 <= v < |views| ==> ViewPasses(o, versions, Group(o, v), views[v])
    ensures AllExact(o, versions, views) <==> AllFull(o, views)
  {
    forall w | 0 <= w < |views|
      ensures Exact(o, versions, views[w], Group(o, w)) <==> Full(o, Group(o, w), views[w])
    {
      if Full(o, Group(o, w), views[w]) {
        ExactIfChecked(o, versions, Group(o, w), views[w]);
      }
      if Exact(o, versions, views[w], Group(o, w)) {
        CheckedIfExact(o, versions, Group(o, w), views[w]);
      }
    }
  }
}
