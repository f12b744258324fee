/** How a baseline run spreads its records, writers and subscriptions over the Stars. */
module Routing {
  import opened Modular

  datatype Load = Load(stars: nat, records: nat, groups: nat, fanout: nat, clients: nat, writers: nat)
  {
    /** The checks of the parameter parser and of the route. */
    predicate Checked() {
      && 8 <= records <= 1024 && 1 <= groups <= 8 && 1 <= fanout <= 32 && 1 <= clients <= 8 && 1 <= writers <= 32
      && records % groups == 0 && records % writers == 0 && groups * fanout <= 128
      && 1 <= stars <= 8
      && clients >= stars && clients % stars == 0
      && writers >= stars && writers % stars == 0
      && records >= clients && records % clients == 0
      && fanout >= stars
    }

    function Producer(client: nat): nat
      requires Checked()
    {
      client % stars
    }

    /** Consumers are shifted by one Star. */
    function Consumer(client: nat): nat
      requires Checked()
    {
      (client % stars + 1) % stars
    }

    /** The Star a record is written on, through the client it is assigned to. */
    function RecordStar(record: nat): nat
      requires Checked()
    {
      Producer(record % clients)
    }

    /** The Star a subscription listens on. */
    function WatcherStar(watcher: nat): nat
      requires Checked()
    {
      Consumer(watcher % clients)
    }
  }

  /** A subscription: the group it follows and the client that carries it. */
  datatype Subscription = Subscription(group: nat, client: nat)

  /** The star of each client: producers first, consumers after them. */
  ghost predicate ClientTable(l: Load, clients: seq<nat>)
    requires l.Checked()
  {
    && |clients| == 2 * l.clients
    && (forall c :: 0 <= c < l.clients ==> clients[c] == c % l.stars)
    && (forall c :: l.clients <= c < 2 * l.clients ==> clients[c] == ((c - l.clients) % l.stars + 1) % l.stars)
  }

  method OpenClients(l: Load) returns (clients: seq<nat>)
    requires l.Checked()
    ensures ClientTable(l, clients)
  {
    clients := [];
    for i := 0 to l.clients * 2
      invariant |clients| == i
      invariant forall c :: 0 <= c < i && c < l.clients ==> clients[c] == l.Producer(c)
      invariant forall c :: l.clients <= c < i ==> clients[c] == l.Consumer(c - l.clients)
    {
      clients := clients + [if i < l.clients then l.Producer(i) else l.Consumer(i - l.clients)];
    }
  }

  /** Every record gets one producing client, and with it one Star. */
  method AssignRecords(l: Load, clients: seq<nat>) returns (publishers: seq<nat>)
    requires l.Checked() && ClientTable(l, clients)
    ensures |publishers| == l.records
    ensures forall r :: 0 <= r < l.records ==>
              && publishers[r] == r % l.clients
              && publishers[r] < l.clients && clients[publishers[r]] == l.RecordStar(r)
  {
    publishers := [];
    for r := 0 to l.records
      invariant |publishers| == r
      invariant forall j :: 0 <= j < r ==>
                  && publishers[j] == j % l.clients
                  && publishers[j] < l.clients && clients[publishers[j]] == l.RecordStar(j)
    {
      publishers := publishers + [r % l.clients];
    }
  }

  ghost predicate Follows(l: Load, clients: seq<nat>, w: nat, s: Subscription)
    requires l.Checked() && ClientTable(l, clients)
  {
    && s.group == w / l.fanout && s.client == l.clients + w % l.clients
    && s.client < 2 * l.clients && clients[s.client] == l.WatcherStar(w)
  }

  lemma ConsumerAt(l: Load, clients: seq<nat>, k: nat)
    requires l.Checked() && ClientTable(l, clients) && k < l.clients
    ensures l.clients <= l.clients + k < 2 * l.clients == |clients| && clients[l.clients + k] == l.Consumer(k)
  {
  }

  /** The arithmetic of one subscription, apart from the checks of the load. */
  method Split(w: nat, fanout: nat, clients: nat) returns (group: nat, slot: nat)
    requires fanout > 0 && clients > 0
    ensures group == w / fanout && slot == w % clients && slot < clients
  {
    group, slot := w / fanout, w % clients;
  }

  method Subscribe(l: Load, clients: seq<nat>, w: nat) returns (s: Subscription)
    requires l.Checked() && ClientTable(l, clients)
    ensures Follows(l, clients, w, s)
  {
    var group, slot := Split(w, l.fanout, l.clients);
    ConsumerAt(l, clients, slot);
    s := Subscription(group, l.clients + slot);
  }

  /** The first n subscriptions. */
  method SubscribeAll(l: Load, clients: seq<nat>, n: nat) returns (subscriptions: seq<Subscription>)
    requires l.Checked() && ClientTable(l, clients)
    ensures |subscriptions| == n
    ensures forall w :: 0 <= w < n ==> Follows(l, clients, w, subscriptions[w])
  {
    subscriptions := [];
    for w := 0 to n
      invariant |subscriptions| == w
      invariant forall j :: 0 <= j < w ==> Follows(l, clients, j, subscriptions[j])
    {
      var s := Subscribe(l, clients, w);
      subscriptions := subscriptions + [s];
    }
  }

  method AssignWatchers(l: Load, clients: seq<nat>) returns (subscriptions: seq<Subscription>)
    requires l.Checked() && ClientTable(l, clients)
    ensures |subscriptions| == l.groups * l.fanout
    ensures forall w :: 0 <= w < |subscriptions| ==> Follows(l, clients, w, subscriptions[w])
  {
    subscriptions := SubscribeAll(l, clients, l.groups * l.fanout);
  }

  lemma RecordStarValue(l: Load, r: nat)
    requires l.Checked()
    ensures l.RecordStar(r) == r % l.stars
  {
    NestedRemainder(r, l.clients, l.stars);
    NestedRemainder(r % l.clients, l.stars, l.stars);
  }

  lemma WatcherStarValue(l: Load, w: nat)
    requires l.Checked()
    ensures l.WatcherStar(w) == (w + 1) % l.stars
  {
    NestedRemainder(w, l.clients, l.stars);
    QuotientStep(w, l.stars);
    QuotientStep(w % l.stars, l.stars);
    NestedRemainder(w, l.stars, l.stars);
  }

  /** Some number of every run of n consecutive ones has a given remainder. */
  lemma {:induction false} RunCovers(a: nat, n: nat, k: nat) returns (s: nat)
    requires k < n
    ensures s < n && (a + s) % n == k
  {
    var r := a % n;
    s := if r <= k then k - r else n - r + k;
    if r <= k {
      DivMod(a + s, n, a / n, k);
    } else {
      Distribute(a / n, 1, n);
      DivMod(a + s, n, a / n + 1, k);
    }
  }

  /** The subscriptions of every group reach every Star. */
  lemma GroupReachesStar(l: Load, group: nat, star: nat) returns (sub: nat)
    requires l.Checked() && group < l.groups && star < l.stars
    ensures sub < l.fanout && l.WatcherStar(group * l.fanout + sub) == star
  {
    var first := group * l.fanout;
    sub := RunCovers(first + 1, l.stars, star);
    WatcherStarValue(l, first + sub);
  }

  /** Each record is watched on the Star that holds it and on every other one. */
  lemma RecordSeenEverywhere(l: Load, record: nat, star: nat) returns (sub: nat)
    requires l.Checked() && record < l.records && star < l.stars
    ensures sub < l.fanout && l.WatcherStar(record % l.groups * l.fanout + sub) == star
    ensures l.RecordStar(record) < l.stars
  {
    sub := GroupReachesStar(l, record % l.groups, star);
    RecordStarValue(l, record);
  }

  /** How many of the first m records are produced on a Star. */
  function RecordsOn(l: Load, m: nat, star: nat): nat
    requires l.Checked()
  {
    if m == 0 then 0 else RecordsOn(l, m - 1, star) + (if l.RecordStar(m - 1) == star then 1 else 0)
  }

  /** The Star a writer's records lie on. */
  lemma WriterStaysOnStar(l: Load, writer: nat, record: nat)
    requires l.Checked() && writer < l.writers && record % l.writers == writer
    ensures l.RecordStar(record) == writer % l.stars
  {
    RecordStarValue(l, record);
    NestedRemainder(record, l.writers, l.stars);
  }

  lemma {:induction false} RecordsOnValue(l: Load, m: nat, star: nat)
    requires l.Checked()
    ensures RecordsOn(l, m, star) == CountRemainder(m, l.stars, star)
  {
    if m > 0 {
      RecordsOnValue(l, m - 1, star);
      RecordStarValue(l, m - 1);
    }
  }

  lemma DivisorOfMultiple(a: nat, b: nat, n: nat)
    requires n > 0 && b > 0 && a % b == 0 && b % n == 0
    ensures a % n == 0
  {
    var p, q := a / b, b / n;
    assert p * q * n == p * (q * n);
    DivMod(a, n, p * q, 0);
  }

  /** Records and writers are spread equally over the Stars. */
  lemma SpreadIsEqual(l: Load, star: nat)
    requires l.Checked() && star < l.stars
    ensures RecordsOn(l, l.records, star) == l.records / l.stars
    ensures CountRemainder(l.writers, l.stars, star) == l.writers / l.stars
  {
    RecordsOnValue(l, l.records, star);
    DivisorOfMultiple(l.records, l.clients, l.stars);
    CountRemainderValue(l.records, l.stars, star);
    CountRemainderValue(l.writers, l.stars, star);
  }
}

/** The writes of a fixed-rate run. */
module Schedule {
  import opened Modular
  import opened Routing

  /** Records a writer owns. */
  function Share(l: Load): (p: nat)
    requires l.Checked()
    ensures p >= 1
  {
    l.records / l.writers
  }

  /** The record of a writer's operation: its own records in turn. */
  function RecordAt(l: Load, writer: nat, operation: nat): nat
    requires l.Checked()
  {
    writer + operation % Share(l) * l.writers
  }

  lemma OwnRecord(l: Load, writer: nat, j: nat)
    requires l.Checked() && writer < l.writers && j < Share(l)
    ensures writer + j * l.writers < l.records && (writer + j * l.writers) % l.writers == writer
    ensures (writer + j * l.writers) / l.writers == j
  {
    var p := Share(l);
    ShareTimes(l);
    Distribute(j, 1, l.writers);
    MulOrder(p, j + 1, l.writers);
    DivMod(writer + j * l.writers, l.writers, j, writer);
  }

  /** Record indices are in range and belong to one writer only. */
  lemma RecordsAreDisjoint(l: Load, writer: nat, operation: nat)
    requires l.Checked() && writer < l.writers
    ensures RecordAt(l, writer, operation) < l.records && RecordAt(l, writer, operation) % l.writers == writer
  {
    OwnRecord(l, writer, operation % Share(l));
  }

  /** A writer's own record number j. */
  function Own(l: Load, writer: nat, j: nat): nat {
    writer + j * l.writers
  }

  lemma OwnInjective(l: Load, writer: nat, i: nat, j: nat)
    requires l.Checked() && writer < l.writers && i < Share(l) && j < Share(l) && Own(l, writer, i) == Own(l, writer, j)
    ensures i == j
  {
    OwnRecord(l, writer, i);
    OwnRecord(l, writer, j);
  }

  datatype Write = Write(record: nat, version: nat)

  /** Versions of a writer's records after its first n operations. */
  ghost predicate Counted(l: Load, writer: nat, n: nat, versions: seq<nat>)
    requires l.Checked()
  {
    && |versions| == l.records && writer < l.writers
    && forall j: nat {:trigger Own(l, writer, j)} :: j < Share(l) ==>
         (OwnRecord(l, writer, j); versions[Own(l, writer, j)] == 1 + CountRemainder(n, Share(l), j))
  }

  lemma CountOwn(n: nat, p: nat)
    requires p > 0
    ensures CountRemainder(n, p, n % p) == n / p
  {
    CountRemainderValue(n, p, n % p);
  }

  /** One operation raises exactly one version. */
  lemma CountOne(l: Load, writer: nat, n: nat, versions: seq<nat>)
    requires l.Checked() && Counted(l, writer, n, versions)
    ensures RecordAt(l, writer, n) < |versions|
    ensures versions[RecordAt(l, writer, n)] == 1 + n / Share(l)
    ensures Counted(l, writer, n + 1, versions[RecordAt(l, writer, n) := versions[RecordAt(l, writer, n)] + 1])
  {
    var p := Share(l);
    var i := n % p;
    var record := RecordAt(l, writer, n);
    OwnRecord(l, writer, i);
    assert record == Own(l, writer, i);
    CountOwn(n, p);
    var versions' := versions[record := versions[record] + 1];
    forall j: nat | j < p
      ensures Own(l, writer, j) < |versions'|
      ensures versions'[Own(l, writer, j)] == 1 + CountRemainder(n + 1, p, j)
    {
      OwnRecord(l, writer, j);
      if Own(l, writer, j) == record {
        OwnInjective(l, writer, i, j);
      }
    }
  }

  /** One write: the next own record, with its version raised by one. */
  method WriteNext(l: Load, writer: nat, operation: nat, versions: array<nat>, ghost start: seq<nat>)
    returns (write: Write)
    requires l.Checked() && Counted(l, writer, operation, versions[..]) && Untouched(l, writer, start, versions[..])
    modifies versions
    ensures Counted(l, writer, operation + 1, versions[..]) && Untouched(l, writer, start, versions[..])
    ensures write == Write(RecordAt(l, writer, operation), 2 + operation / Share(l))
  {
    var record := RecordAt(l, writer, operation);
    CountOne(l, writer, operation, versions[..]);
    TouchOwn(l, writer, start, versions[..], operation, versions[record] + 1);
    versions[record] := versions[record] + 1;
    write := Write(record, versions[record]);
  }

  ghost predicate Logged(l: Load, writer: nat, log: seq<Write>)
    requires l.Checked()
  {
    forall k :: 0 <= k < |log| ==>
      log[k] == Write(writer + k % (l.records / l.writers) * l.writers, 2 + k / (l.records / l.writers))
  }

  lemma LogOne(l: Load, writer: nat, log: seq<Write>)
    requires l.Checked() && Logged(l, writer, log)
    ensures Logged(l, writer, log + [Write(RecordAt(l, writer, |log|), 2 + |log| / Share(l))])
  {
  }

  /**
   * The loop of one writer in fixed-rate mode.  Its operation k has the global index
   * k * writers + writer; it writes the next of its own records with the next version.
   */
  method RunWriter(l: Load, writer: nat, total: nat, versions: array<nat>) returns (log: seq<Write>)
    requires l.Checked() && Counted(l, writer, 0, versions[..])
    modifies versions
    ensures forall k: nat :: k < |log| <==> k * l.writers + writer < total
    ensures Logged(l, writer, log)
    ensures Untouched(l, writer, old(versions[..]), versions[..])
    ensures Counted(l, writer, |log|, versions[..])
  {
    log := [];
    while |log| * l.writers + writer < total
      invariant |log| > 0 ==> (|log| - 1) * l.writers + writer < total
      invariant Counted(l, writer, |log|, versions[..])
      invariant Logged(l, writer, log)
      invariant Untouched(l, writer, old(versions[..]), versions[..])
      decreases total - |log| * l.writers
    {
      LogOne(l, writer, log);
      Distribute(|log|, 1, l.writers);
      var write := WriteNext(l, writer, |log|, versions, old(versions[..]));
      log := log + [write];
    }
    OperationBound(l, writer, |log|, total);
  }

  ghost predicate Untouched(l: Load, writer: nat, before: seq<nat>, after: seq<nat>)
    requires l.writers > 0
  {
    && |before| == |after|
    && forall r {:trigger after[r]} :: 0 <= r < |before| && r % l.writers != writer ==> after[r] == before[r]
  }

  lemma TouchOwn(l: Load, writer: nat, before: seq<nat>, after: seq<nat>, operation: nat, v: nat)
    requires l.Checked() && writer < l.writers && Untouched(l, writer, before, after) && |after| == l.records
    ensures RecordAt(l, writer, operation) < |after|
    ensures Untouched(l, writer, before, after[RecordAt(l, writer, operation) := v])
  {
    RecordsAreDisjoint(l, writer, operation);
  }

  lemma InitialVersions(l: Load, writer: nat, versions: seq<nat>)
    requires l.Checked() && writer < l.writers && |versions| == l.records
    requires forall r :: 0 <= r < |versions| && r % l.writers == writer ==> versions[r] == 1
    ensures Counted(l, writer, 0, versions)
  {
    forall j: nat | j < Share(l)
      ensures Own(l, writer, j) < |versions| && versions[Own(l, writer, j)] == 1
    {
      OwnRecord(l, writer, j);
    }
  }

  /** The loop runs exactly the operations whose global index is below the total. */
  lemma OperationBound(l: Load, writer: nat, n: nat, total: nat)
    requires l.Checked() && n * l.writers + writer >= total
    requires n > 0 ==> (n - 1) * l.writers + writer < total
    ensures forall k: nat :: k < n <==> k * l.writers + writer < total
  {
    forall k: nat
      ensures k < n <==> k * l.writers + writer < total
    {
      MulOrder(k, n, l.writers);
      MulOrder(n - 1, k, l.writers);
    }
  }

  /** Every global index is the operation of exactly one writer. */
  lemma IndexPartition(l: Load, index: nat, writer: nat, operation: nat)
    requires l.Checked() && writer < l.writers
    ensures index == operation * l.writers + writer <==> writer == index % l.writers && operation == index / l.writers
  {
    if index == operation * l.writers + writer {
      DivMod(index, l.writers, operation, writer);
    }
  }

  /** Two operations on one record are at least Share apart. */
  lemma RepeatsAreApart(l: Load, writer: nat, k: nat, m: nat)
    requires l.Checked() && writer < l.writers && k < m && RecordAt(l, writer, k) == RecordAt(l, writer, m)
    ensures m - k >= Share(l)
  {
    OwnInjective(l, writer, k % Share(l), m % Share(l));
    SameRemainder(m, k, Share(l));
  }

  lemma ShareTimes(l: Load)
    requires l.Checked()
    ensures l.records == Share(l) * l.writers
  {
    DivModIdentity(l.records, l.writers);
  }

  lemma OwnNumber(record: nat, writers: nat, share: nat)
    requires writers > 0 && record < share * writers
    ensures record / writers < share && record == record % writers + record / writers * writers
  {
    QuotientBound(record, writers, share);
    DivModIdentity(record, writers);
  }

  lemma RecordIsOwn(l: Load, writer: nat, record: nat, share: nat) returns (j: nat)
    requires l.writers > 0 && l.records == share * l.writers && record < l.records && record % l.writers == writer
    ensures j < share && record == Own(l, writer, j)
  {
    OwnNumber(record, l.writers, share);
    j := record / l.writers;
  }

  lemma BlockTouches(l: Load, writer: nat, first: nat, record: nat) returns (k: nat)
    requires l.Checked() && writer < l.writers && record < l.records && record % l.writers == writer
    ensures first <= k < first + Share(l) && RecordAt(l, writer, k) == record
  {
    ShareTimes(l);
    var j := RecordIsOwn(l, writer, record, Share(l));
    var s := RunCovers(first, Share(l), j);
    k := first + s;
  }

  /** Any Share consecutive operations of a writer touch each of its records, and none of them twice. */
  lemma BlockTouchesEachOnce(l: Load, writer: nat, first: nat, record: nat) returns (k: nat)
    requires l.Checked() && writer < l.writers && record < l.records && record % l.writers == writer
    ensures first <= k < first + Share(l) && RecordAt(l, writer, k) == record
    ensures forall m: nat :: first <= m < first + Share(l) && RecordAt(l, writer, m) == record ==> m == k
  {
    k := BlockTouches(l, writer, first, record);
    forall m: nat | first <= m < first + Share(l) && RecordAt(l, writer, m) == record
      ensures m == k
    {
      if m < k {
        RepeatsAreApart(l, writer, m, k);
      } else if m > k {
        RepeatsAreApart(l, writer, k, m);
      }
    }
  }
}
