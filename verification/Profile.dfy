/** Offline reading of a profile file: one pass over its slots that accepts only nested spans. */
module Profile {
  import opened Common

  datatype Header = Header(
    magic: nat, version: nat, width: nat, capacity: nat, count: nat, missed: nat, errors: nat,
    sample: nat, cpu: nat, reserved: seq<nat>)

  datatype Entry = Entry(
    start: nat, elapsed: nat, own: nat, used: nat, exclusive: nat, number: nat, parent: nat,
    site: nat, value: nat, thread: nat, flags: nat)

  /** A file of at least header size: the header and the whole entries that follow it. */
  datatype Trace = Trace(header: Header, entries: seq<Entry>)

  /** The names of the instrumented places. */
  type Sites = map<nat, string>

  const MAGIC := 0x4153545241505246
  const WIDTH := 80
  const EMPTY := Entry(0, 0, 0, 0, 0, 0, 0, 0, 0, 0, 0)

  datatype Kind = Span | Counter | Interval

  ghost function KindOf(e: Entry): Kind {
    if e.flags == 2 then Counter else if e.flags == 4 then Interval else Span
  }

  ghost predicate HeaderOk(t: Trace) {
    var h := t.header;
    && h.magic == MAGIC && h.version == 1 && h.width == WIDTH
    && (forall i :: 0 <= i < |h.reserved| ==> h.reserved[i] == 0)
    && h.capacity != 0 && h.capacity % 64 == 0 && h.count % 64 == 0
    && h.capacity <= |t.entries|
    && 1 <= h.sample <= 65536 && (h.cpu == 0 || h.cpu == 1)
  }

  /** Slots the pass visits. */
  ghost function Slots(t: Trace): nat {
    if t.header.count < t.header.capacity then t.header.count else t.header.capacity
  }

  ghost predicate FieldsOk(sites: Sites, e: Entry) {
    && e.site in sites && e.thread != 0
    && (e.flags == 0 || e.flags == 1 || e.flags == 2 || e.flags == 4)
    && e.own <= e.elapsed && e.exclusive <= e.used
  }

  ghost predicate KindOk(cpu: nat, slot: nat, e: Entry) {
    match KindOf(e)
    case Span =>
      e.number == slot + 1 && e.flags == cpu && e.value == 0 && (cpu == 0 ==> e.used == 0 && e.exclusive == 0)
    case Counter => e.number == 0 && e.used == 0 && e.exclusive == 0 && e.elapsed == 0 && e.own == 0 && e.parent != 0
    case Interval =>
      e.number == 0 && e.used == 0 && e.exclusive == 0 && e.parent == 0 && e.value == 0 && e.own == e.elapsed
  }

  /** The record an event names as its parent must be an enclosing span of the same thread. */
  ghost predicate ParentOk(sites: Sites, entries: seq<Entry>, slot: nat, e: Entry)
    requires slot < |entries|
  {
    e.parent != 0 ==>
      && e.parent <= slot
      && var a := entries[e.parent - 1];
         && a.number == e.parent && a.thread == e.thread && (a.flags == 0 || a.flags == 1)
         && a.start <= e.start && e.start + e.elapsed <= a.start + a.elapsed
         && a.site in sites
  }

  ghost predicate SlotOk(t: Trace, sites: Sites, slot: nat)
    requires slot < |t.entries|
  {
    var e := t.entries[slot];
    e == EMPTY || (FieldsOk(sites, e) && KindOk(t.header.cpu, slot, e) && ParentOk(sites, t.entries, slot, e))
  }

  ghost predicate Accepts(t: Trace, sites: Sites) {
    HeaderOk(t) && forall slot {:trigger SlotOk(t, sites, slot)} :: 0 <= slot < Slots(t) ==> SlotOk(t, sites, slot)
  }

  // ---- grouping ----

  /** Events with the same site, the same name of the parent's site and the same kind are reported together. */
  datatype Key = Key(site: nat, parent: Option<string>, kind: Kind)

  datatype Group = Group(walls: seq<nat>, owns: seq<nat>, cpus: seq<nat>, cpuOwns: seq<nat>, values: seq<nat>)

  const NOTHING := Group([], [], [], [], [])

  ghost function ParentName(t: Trace, sites: Sites, e: Entry): Option<string> {
    if 1 <= e.parent <= |t.entries| && t.entries[e.parent - 1].site in sites then
      Some(sites[t.entries[e.parent - 1].site])
    else None
  }

  ghost function KeyOf(t: Trace, sites: Sites, e: Entry): Key {
    Key(e.site, ParentName(t, sites, e), KindOf(e))
  }

  ghost predicate HasKey(t: Trace, sites: Sites, slot: nat, k: Key)
    requires slot < |t.entries|
  {
    t.entries[slot] != EMPTY && KeyOf(t, sites, t.entries[slot]) == k
  }

  /** The slots of the events with a key among the first n, in slot order. */
  ghost function EventsOf(t: Trace, sites: Sites, n: nat, k: Key): (events: seq<nat>)
    requires n <= |t.entries|
    ensures forall j :: 0 <= j < |events| ==> events[j] < n
  {
    if n == 0 then []
    else EventsOf(t, sites, n - 1, k) + (if HasKey(t, sites, n - 1, k) then [n - 1] else [])
  }

  lemma {:induction false} EventsAreThose(t: Trace, sites: Sites, n: nat, k: Key)
    requires n <= |t.entries|
    ensures forall i: nat :: i in EventsOf(t, sites, n, k) <==> i < n && HasKey(t, sites, i, k)
    ensures forall i, j :: 0 <= i < j < |EventsOf(t, sites, n, k)| ==>
              EventsOf(t, sites, n, k)[i] < EventsOf(t, sites, n, k)[j]
  {
    if n > 0 {
      EventsAreThose(t, sites, n - 1, k);
    }
  }

  /**
   * The lists of a group are, index by index, the named fields of its events: elapsed and own time of
   * spans and intervals, CPU times of spans where they are taken, values of counters.
   */
  ghost predicate Lists(t: Trace, events: seq<nat>, kind: Kind, g: Group)
    requires forall j :: 0 <= j < |events| ==> events[j] < |t.entries|
  {
    && |g.walls| == |g.owns| == (if kind == Counter then 0 else |events|)
    && |g.cpus| == |g.cpuOwns| == (if kind == Span && t.header.cpu != 0 then |events| else 0)
    && |g.values| == (if kind == Counter then |events| else 0)
    && (forall j :: 0 <= j < |g.walls| ==> g.walls[j] == t.entries[events[j]].elapsed)
    && (forall j :: 0 <= j < |g.owns| ==> g.owns[j] == t.entries[events[j]].own)
    && (forall j :: 0 <= j < |g.cpus| ==> g.cpus[j] == t.entries[events[j]].used)
    && (forall j :: 0 <= j < |g.cpuOwns| ==> g.cpuOwns[j] == t.entries[events[j]].exclusive)
    && (forall j :: 0 <= j < |g.values| ==> g.values[j] == t.entries[events[j]].value)
  }

  /** Events of one kind among the first n slots. */
  ghost function CountKind(t: Trace, n: nat, kind: Kind): nat
    requires n <= |t.entries|
  {
    if n == 0 then 0
    else CountKind(t, n - 1, kind) + (if t.entries[n - 1] != EMPTY && KindOf(t.entries[n - 1]) == kind then 1 else 0)
  }

  ghost function CountEmpty(t: Trace, n: nat): nat
    requires n <= |t.entries|
  {
    if n == 0 then 0 else CountEmpty(t, n - 1) + (if t.entries[n - 1] == EMPTY then 1 else 0)
  }

  /** There is a group for every key with an event and for no other, and it holds exactly these events. */
  ghost predicate Grouped(t: Trace, sites: Sites, n: nat, groups: map<Key, Group>)
    requires n <= |t.entries|
  {
    && (forall k :: k in groups ==> Lists(t, EventsOf(t, sites, n, k), k.kind, groups[k]))
    && (forall k :: k in groups <==> EventsOf(t, sites, n, k) != [])
  }

  datatype Report = Report(holes: nat, spans: nat, counters: nat, intervals: nat, groups: map<Key, Group>)

  // ---- the pass ----

  method CheckHeader(t: Trace) returns (ok: bool)
    ensures ok <==> HeaderOk(t)
  {
    var h := t.header;
    if h.magic != 0x4153545241505246 || h.version != 1 || h.width != 80 {
      return false;
    }
    for i := 0 to |h.reserved|
      invariant forall j :: 0 <= j < i ==> h.reserved[j] == 0
    {
      if h.reserved[i] != 0 {
        return false;
      }
    }
    ok := !(|| h.capacity == 0 || h.capacity % 64 != 0 || h.count % 64 != 0 || h.capacity > |t.entries|
            || h.sample < 1 || h.sample > 65536 || h.cpu > 1);
  }

  /** The checks of one record that is not empty, and its kind. */
  method CheckEvent(t: Trace, sites: Sites, slot: nat) returns (ok: bool, kind: Kind)
    requires slot < |t.entries| && t.entries[slot] != EMPTY
    ensures ok <==> SlotOk(t, sites, slot)
    ensures kind == KindOf(t.entries[slot])
  {
    var e, cpu := t.entries[slot], t.header.cpu;
    kind := if e.flags == 2 then Counter else if e.flags == 4 then Interval else Span;
    if e.site !in sites || e.thread == 0 || e.flags == 3 || e.flags > 4 || e.own > e.elapsed || e.exclusive > e.used {
      return false, kind;
    }
    if kind == Span {
      if e.number != slot + 1 || e.flags != cpu || e.value != 0 || (cpu == 0 && (e.used != 0 || e.exclusive != 0)) {
        return false, kind;
      }
    } else if || e.number != 0 || e.used != 0 || e.exclusive != 0
              || (kind == Counter && (e.elapsed != 0 || e.own != 0 || e.parent == 0))
              || (kind == Interval && (e.parent != 0 || e.value != 0 || e.own != e.elapsed)) {
      return false, kind;
    }
    ok := CheckParent(t, sites, slot);
  }

  method CheckParent(t: Trace, sites: Sites, slot: nat) returns (ok: bool)
    requires slot < |t.entries|
    ensures ok <==> ParentOk(sites, t.entries, slot, t.entries[slot])
  {
    var e := t.entries[slot];
    if e.parent == 0 {
      return true;
    }
    if e.parent > slot {
      return false;
    }
    var a := t.entries[e.parent - 1];
    ok := !(|| a.number != e.parent || a.thread != e.thread || a.flags > 1 || a.start > e.start
            || e.start + e.elapsed > a.start + a.elapsed || a.site !in sites);
  }

  method KeyFor(t: Trace, sites: Sites, slot: nat, kind: Kind) returns (key: Key)
    requires slot < |t.entries| && SlotOk(t, sites, slot) && kind == KindOf(t.entries[slot])
    requires t.entries[slot] != EMPTY
    ensures key == KeyOf(t, sites, t.entries[slot])
  {
    var e := t.entries[slot];
    var parent: Option<string> := None;
    if e.parent != 0 {
      parent := Some(sites[t.entries[e.parent - 1].site]);
    }
    key := Key(e.site, parent, kind);
  }

  /** A group gains one event. */
  method Append(t: Trace, g: Group, e: Entry, kind: Kind, ghost events: seq<nat>, ghost slot: nat) returns (g': Group)
    requires slot < |t.entries| && e == t.entries[slot]
    requires (forall j :: 0 <= j < |events| ==> events[j] < |t.entries|) && Lists(t, events, kind, g)
    ensures Lists(t, events + [slot], kind, g')
  {
    g' := g;
    if kind == Counter {
      g' := g'.(values := g'.values + [e.value]);
    } else {
      g' := g'.(walls := g'.walls + [e.elapsed], owns := g'.owns + [e.own]);
      if kind == Span && t.header.cpu != 0 {
        g' := g'.(cpus := g'.cpus + [e.used], cpuOwns := g'.cpuOwns + [e.exclusive]);
      }
    }
  }

  lemma EventsGrow(t: Trace, sites: Sites, n: nat, k: Key)
    requires n < |t.entries| && HasKey(t, sites, n, k)
    ensures EventsOf(t, sites, n + 1, k) == EventsOf(t, sites, n, k) + [n]
    ensures forall other :: other != k ==> EventsOf(t, sites, n + 1, other) == EventsOf(t, sites, n, other)
  {
  }

  lemma GroupOne(t: Trace, sites: Sites, n: nat, groups: map<Key, Group>, k: Key, g: Group)
    requires n < |t.entries| && Grouped(t, sites, n, groups) && HasKey(t, sites, n, k)
    requires Lists(t, EventsOf(t, sites, n, k) + [n], k.kind, g)
    ensures Grouped(t, sites, n + 1, groups[k := g])
  {
    EventsGrow(t, sites, n, k);
    forall other
      ensures other in groups[k := g] <==> EventsOf(t, sites, n + 1, other) != []
      ensures other in groups[k := g] ==>
                Lists(t, EventsOf(t, sites, n + 1, other), other.kind, groups[k := g][other])
    {
      if other != k {
        assert EventsOf(t, sites, n + 1, other) == EventsOf(t, sites, n, other);
      }
    }
  }

  lemma HoleKeeps(t: Trace, sites: Sites, n: nat, groups: map<Key, Group>)
    requires n < |t.entries| && Grouped(t, sites, n, groups) && t.entries[n] == EMPTY
    ensures Grouped(t, sites, n + 1, groups)
  {
    forall k
      ensures EventsOf(t, sites, n + 1, k) == EventsOf(t, sites, n, k)
    {
    }
  }

  /** File one event under its key. */
  method Enter(t: Trace, sites: Sites, slot: nat, kind: Kind, groups: map<Key, Group>)
    returns (groups': map<Key, Group>)
    requires slot < |t.entries| && SlotOk(t, sites, slot) && t.entries[slot] != EMPTY
    requires kind == KindOf(t.entries[slot]) && Grouped(t, sites, slot, groups)
    ensures Grouped(t, sites, slot + 1, groups')
  {
    var key := KeyFor(t, sites, slot, kind);
    var g := if key in groups then groups[key] else NOTHING;
    ghost var events := EventsOf(t, sites, slot, key);
    g := Append(t, g, t.entries[slot], kind, events, slot);
    GroupOne(t, sites, slot, groups, key, g);
    groups' := groups[key := g];
  }

  /** What the pass has counted and filed after n slots. */
  ghost predicate Passed(t: Trace, sites: Sites, n: nat, r: Report)
    requires n <= |t.entries|
  {
    && r.holes == CountEmpty(t, n) && r.spans == CountKind(t, n, Span)
    && r.counters == CountKind(t, n, Counter) && r.intervals == CountKind(t, n, Interval)
    && Grouped(t, sites, n, r.groups)
  }

  /** One slot of the pass. */
  method Visit(t: Trace, sites: Sites, slot: nat, r: Report) returns (next: Option<Report>)
    requires slot < |t.entries| && Passed(t, sites, slot, r)
    ensures next.Some? <==> SlotOk(t, sites, slot)
    ensures next.Some? ==> Passed(t, sites, slot + 1, next.value)
  {
    var e := t.entries[slot];
    if e == EMPTY {
      HoleKeeps(t, sites, slot, r.groups);
      return Some(r.(holes := r.holes + 1));
    }
    var ok, kind := CheckEvent(t, sites, slot);
    if !ok {
      return None;
    }
    var groups := Enter(t, sites, slot, kind, r.groups);
    match kind {
      case Span => next := Some(r.(spans := r.spans + 1, groups := groups));
      case Counter => next := Some(r.(counters := r.counters + 1, groups := groups));
      case Interval => next := Some(r.(intervals := r.intervals + 1, groups := groups));
    }
  }

  method Analyze(t: Trace, sites: Sites) returns (r: Option<Report>)
    ensures r.Some? <==> Accepts(t, sites)
    ensures r.Some? ==>
              && Passed(t, sites, Slots(t), r.value)
              && SizeOf(r.value.groups) == r.value.spans + r.value.counters + r.value.intervals
              && forall k :: k in r.value.groups ==> TimesFit(r.value.groups[k])
  {
    var headed := CheckHeader(t);
    if !headed {
      return None;
    }
    var n := if t.header.count < t.header.capacity then t.header.count else t.header.capacity;
    var report := Report(0, 0, 0, 0, map[]);
    for slot := 0 to n
      invariant forall s {:trigger SlotOk(t, sites, s)} :: 0 <= s < slot ==> SlotOk(t, sites, s)
      invariant Passed(t, sites, slot, report)
    {
      var next := Visit(t, sites, slot, report);
      if next.None? {
        return None;
      }
      report := next.value;
    }
    GroupsPartitionEvents(t, sites, n, report.groups);
    forall k | k in report.groups
      ensures TimesFit(report.groups[k])
    {
      GroupTimesFit(t, sites, k, report.groups[k]);
    }
    r := Some(report);
  }

  // ---- what acceptance gives ----

  /** Wall and own times come in pairs, and so do the CPU times; an own time is never the longer one. */
  ghost predicate TimesFit(g: Group) {
    && |g.walls| == |g.owns| && |g.cpus| == |g.cpuOwns|
    && (forall j :: 0 <= j < |g.owns| ==> g.owns[j] <= g.walls[j])
    && (forall j :: 0 <= j < |g.cpuOwns| ==> g.cpuOwns[j] <= g.cpus[j])
  }

  lemma GroupTimesFit(t: Trace, sites: Sites, k: Key, g: Group)
    requires Accepts(t, sites) && Lists(t, EventsOf(t, sites, Slots(t), k), k.kind, g)
    ensures TimesFit(g)
  {
    var events := EventsOf(t, sites, Slots(t), k);
    EventsAreThose(t, sites, Slots(t), k);
    forall j | 0 <= j < |events|
      ensures t.entries[events[j]].own <= t.entries[events[j]].elapsed
      ensures t.entries[events[j]].exclusive <= t.entries[events[j]].used
    {
      assert events[j] in events;
      assert SlotOk(t, sites, events[j]);
    }
  }

  lemma {:induction false} EverySlotCounted(t: Trace, n: nat)
    requires n <= |t.entries|
    ensures CountEmpty(t, n) + CountKind(t, n, Span) + CountKind(t, n, Counter) + CountKind(t, n, Interval) == n
  {
    if n > 0 {
      EverySlotCounted(t, n - 1);
    }
  }

  /** An accepted file: every visited slot is a hole or one event of one kind. */
  lemma CountsAreComplete(t: Trace, sites: Sites)
    requires Accepts(t, sites)
    ensures CountEmpty(t, Slots(t)) + CountKind(t, Slots(t), Span) + CountKind(t, Slots(t), Counter)
            + CountKind(t, Slots(t), Interval) == Slots(t)
  {
    EverySlotCounted(t, Slots(t));
  }

  /** The size of a group: its events, each counted once. */
  ghost function Events(g: Group): nat {
    |g.walls| + |g.values|
  }

  lemma GroupHoldsItsEvents(t: Trace, sites: Sites, n: nat, groups: map<Key, Group>, k: Key)
    requires n <= |t.entries| && Grouped(t, sites, n, groups)
    ensures k in groups ==> Events(groups[k]) == |EventsOf(t, sites, n, k)|
    ensures k !in groups ==> forall i: nat :: i < n ==> !HasKey(t, sites, i, k)
  {
    EventsAreThose(t, sites, n, k);
  }

  // ---- every event is in exactly one group ----

  ghost function SumOf(sizes: map<Key, nat>): nat {
    if sizes == map[] then 0
    else
      var k :| k in sizes;
      sizes[k] + SumOf(sizes - {k})
  }

  /** The sizes of all groups together. */
  ghost function SizeOf(groups: map<Key, Group>): nat {
    SumOf(map k | k in groups :: Events(groups[k]))
  }

  lemma {:induction false} SumWithout(sizes: map<Key, nat>, k: Key)
    requires k in sizes
    ensures SumOf(sizes) == sizes[k] + SumOf(sizes - {k})
    decreases |sizes|
  {
    var first :| first in sizes && SumOf(sizes) == sizes[first] + SumOf(sizes - {first});
    if first != k {
      SumWithout(sizes - {first}, k);
      SumWithout(sizes - {k}, first);
      assert sizes - {first} - {k} == sizes - {k} - {first};
    }
  }

  lemma SumReplaced(sizes: map<Key, nat>, k: Key, n: nat)
    requires k in sizes
    ensures SumOf(sizes[k := n]) + sizes[k] == SumOf(sizes) + n
  {
    SumWithout(sizes, k);
    SumWithout(sizes[k := n], k);
    assert sizes[k := n] - {k} == sizes - {k};
  }

  ghost function Counted(t: Trace, sites: Sites, n: nat, keys: set<Key>): map<Key, nat>
    requires n <= |t.entries|
  {
    map k | k in keys :: |EventsOf(t, sites, n, k)|
  }

  lemma {:induction false} NothingCounted(t: Trace, sites: Sites, keys: set<Key>)
    ensures SumOf(Counted(t, sites, 0, keys)) == 0
    decreases keys
  {
    if keys != {} {
      var k :| k in keys;
      SumWithout(Counted(t, sites, 0, keys), k);
      assert Counted(t, sites, 0, keys) - {k} == Counted(t, sites, 0, keys - {k});
      NothingCounted(t, sites, keys - {k});
    }
  }

  /** The keys cover the events of the first n slots. */
  ghost predicate Covers(t: Trace, sites: Sites, n: nat, keys: set<Key>)
    requires n <= |t.entries|
  {
    forall i {:trigger t.entries[i]} :: 0 <= i < n && t.entries[i] != EMPTY ==> KeyOf(t, sites, t.entries[i]) in keys
  }

  lemma CountedStep(t: Trace, sites: Sites, n: nat, keys: set<Key>)
    requires n < |t.entries|
    ensures var before, e := Counted(t, sites, n, keys), t.entries[n];
            var k := KeyOf(t, sites, e);
            Counted(t, sites, n + 1, keys)
            == if e == EMPTY || k !in keys then before else before[k := before[k] + 1]
  {
  }

  lemma SumRaised(before: map<Key, nat>, after: map<Key, nat>, k: Key)
    requires k in before && after == before[k := before[k] + 1]
    ensures SumOf(after) == SumOf(before) + 1
  {
    SumReplaced(before, k, before[k] + 1);
  }

  /** A hole or one event more. */
  lemma OneSlotMore(t: Trace, sites: Sites, n: nat, keys: set<Key>)
    requires n < |t.entries| && (t.entries[n] != EMPTY ==> KeyOf(t, sites, t.entries[n]) in keys)
    ensures SumOf(Counted(t, sites, n + 1, keys)) ==
            SumOf(Counted(t, sites, n, keys)) + if t.entries[n] == EMPTY then 0 else 1
  {
    CountedStep(t, sites, n, keys);
    if t.entries[n] != EMPTY {
      SumRaised(Counted(t, sites, n, keys), Counted(t, sites, n + 1, keys), KeyOf(t, sites, t.entries[n]));
    }
  }

  lemma {:induction false} SizesAddUp(t: Trace, sites: Sites, n: nat, keys: set<Key>)
    requires n <= |t.entries| && Covers(t, sites, n, keys)
    ensures SumOf(Counted(t, sites, n, keys)) + CountEmpty(t, n) == n
  {
    if n == 0 {
      NothingCounted(t, sites, keys);
    } else {
      SizesAddUp(t, sites, n - 1, keys);
      OneSlotMore(t, sites, n - 1, keys);
    }
  }

  /** The sizes of the reported groups add up to the events of the file: no event is left out or reported twice. */
  lemma GroupsPartitionEvents(t: Trace, sites: Sites, n: nat, groups: map<Key, Group>)
    requires n <= |t.entries| && Grouped(t, sites, n, groups)
    ensures SizeOf(groups) == CountKind(t, n, Span) + CountKind(t, n, Counter) + CountKind(t, n, Interval)
  {
    forall i | 0 <= i < n && t.entries[i] != EMPTY
      ensures KeyOf(t, sites, t.entries[i]) in groups
    {
      GroupHoldsItsEvents(t, sites, n, groups, KeyOf(t, sites, t.entries[i]));
      assert HasKey(t, sites, i, KeyOf(t, sites, t.entries[i]));
    }
    assert Counted(t, sites, n, groups.Keys) == map k | k in groups :: Events(groups[k]);
    SizesAddUp(t, sites, n, groups.Keys);
    EverySlotCounted(t, n);
  }

  // ---- parent chains ----

  /** The parent chain of a slot, from the slot itself to its root. */
  function Chain(t: Trace, slot: nat): (c: seq<nat>)
    requires slot < |t.entries|
    ensures c != [] && c[0] == slot
    decreases slot
  {
    var p := t.entries[slot].parent;
    if 1 <= p <= slot then [slot] + Chain(t, p - 1) else [slot]
  }

  ghost predicate Encloses(a: Entry, e: Entry) {
    a.start <= e.start && e.start + e.elapsed <= a.start + a.elapsed
  }

  /** A parent is a visited span, so it has passed its own checks. */
  lemma ParentIsSpan(t: Trace, sites: Sites, slot: nat)
    requires Accepts(t, sites) && slot < Slots(t) && t.entries[slot] != EMPTY && t.entries[slot].parent != 0
    ensures var p := t.entries[slot].parent;
            && 1 <= p <= slot && t.entries[p - 1] != EMPTY && KindOf(t.entries[p - 1]) == Span
            && t.entries[p - 1].thread == t.entries[slot].thread && Encloses(t.entries[p - 1], t.entries[slot])
  {
    assert SlotOk(t, sites, slot);
  }

  /** One record of a parent chain. */
  ghost predicate Above(t: Trace, slot: nat, a: nat)
    requires slot < |t.entries|
  {
    && a <= slot && t.entries[a] != EMPTY
    && (a != slot ==> KindOf(t.entries[a]) == Span)
    && t.entries[a].thread == t.entries[slot].thread
    && Encloses(t.entries[a], t.entries[slot])
  }

  lemma ChainUnfolds(t: Trace, sites: Sites, slot: nat)
    requires Accepts(t, sites) && slot < Slots(t) && t.entries[slot] != EMPTY && |Chain(t, slot)| > 1
    ensures var p := t.entries[slot].parent;
            && 1 <= p <= slot && t.entries[p - 1] != EMPTY && Above(t, slot, p - 1)
            && Chain(t, slot) == [slot] + Chain(t, p - 1)
  {
    ParentIsSpan(t, sites, slot);
  }

  lemma {:induction false} ChainRecord(t: Trace, sites: Sites, slot: nat, i: nat)
    requires Accepts(t, sites) && slot < Slots(t) && t.entries[slot] != EMPTY && i < |Chain(t, slot)|
    ensures Above(t, slot, Chain(t, slot)[i])
    ensures i > 0 ==> Chain(t, slot)[i] < slot
    decreases slot
  {
    if i > 0 {
      ChainUnfolds(t, sites, slot);
      ChainRecord(t, sites, t.entries[slot].parent - 1, i - 1);
    }
  }

  lemma {:induction false} ChainEnds(t: Trace, sites: Sites, slot: nat)
    requires Accepts(t, sites) && slot < Slots(t) && t.entries[slot] != EMPTY
    ensures Last(Chain(t, slot)) < |t.entries| && t.entries[Last(Chain(t, slot))].parent == 0
    decreases slot
  {
    if t.entries[slot].parent != 0 {
      ParentIsSpan(t, sites, slot);
      ChainEnds(t, sites, t.entries[slot].parent - 1);
      assert Last(Chain(t, slot)) == Last(Chain(t, t.entries[slot].parent - 1));
    }
  }

  /** Between any two records of a chain, the one nearer the root has the lower slot and the wider interval. */
  lemma {:induction false} ChainPairs(t: Trace, sites: Sites, slot: nat, i: nat, j: nat)
    requires Accepts(t, sites) && slot < Slots(t) && t.entries[slot] != EMPTY
    requires i < j < |Chain(t, slot)|
    ensures Chain(t, slot)[j] < Chain(t, slot)[i] <= slot
    ensures Above(t, Chain(t, slot)[i], Chain(t, slot)[j])
    decreases slot
  {
    if i == 0 {
      ChainRecord(t, sites, slot, j);
    } else {
      ChainUnfolds(t, sites, slot);
      ChainPairs(t, sites, t.entries[slot].parent - 1, i - 1, j - 1);
    }
  }

  /**
   * Accepted files are forests of nested spans: every parent chain runs through strictly lower
   * slots and ends at a root; its records above the first are spans, all of one thread, and each
   * record lies inside every record above it.
   */
  lemma ChainsAreNested(t: Trace, sites: Sites, slot: nat)
    requires Accepts(t, sites) && slot < Slots(t) && t.entries[slot] != EMPTY
    ensures forall i :: 0 <= i < |Chain(t, slot)| ==> Chain(t, slot)[i] <= slot
    ensures forall i, j :: 0 <= i < j < |Chain(t, slot)| ==>
              Chain(t, slot)[j] < Chain(t, slot)[i] && Above(t, Chain(t, slot)[i], Chain(t, slot)[j])
    ensures t.entries[Last(Chain(t, slot))].parent == 0
  {
    ChainEnds(t, sites, slot);
    forall i | 0 <= i < |Chain(t, slot)|
      ensures Chain(t, slot)[i] <= slot
    {
      ChainRecord(t, sites, slot, i);
    }
    forall i, j | 0 <= i < j < |Chain(t, slot)|
      ensures Chain(t, slot)[j] < Chain(t, slot)[i] && Above(t, Chain(t, slot)[i], Chain(t, slot)[j])
    {
      ChainPairs(t, sites, slot, i, j);
    }
  }
}
