/** Raw hashes: storing and loading a map of fields whose iteration order is arbitrary. */
module RedisFields {
  import opened Common
  import opened RedisHash

  // ---- byte-wise name order ----

  predicate Less(a: Bytes, b: Bytes) {
    if b == [] then false
    else if a == [] then true
    else if a[0] != b[0] then a[0] < b[0]
    else Less(a[1..], b[1..])
  }

  /** The two agree up to k, where the first ends or has the smaller byte. */
  ghost predicate FirstDifference(a: Bytes, b: Bytes, k: nat) {
    k <= |a| && k < |b| && a[..k] == b[..k] && (k == |a| || a[k] < b[k])
  }

  /** The order is the one of Go's strings: byte by byte, a proper prefix first. */
  lemma {:induction false} LessByFirstDifference(a: Bytes, b: Bytes)
    ensures Less(a, b) <==> exists k :: FirstDifference(a, b, k)
  {
    if a == [] || b == [] || a[0] != b[0] {
      if Less(a, b) {
        assert FirstDifference(a, b, 0);
      } else {
        forall k: nat | k > 0 && k <= |a| && k < |b|
          ensures a[..k] != b[..k]
        {
          assert a[..k][0] == a[0] && b[..k][0] == b[0];
        }
      }
    } else {
      LessByFirstDifference(a[1..], b[1..]);
      if Less(a, b) {
        var k: nat :| FirstDifference(a[1..], b[1..], k);
        assert a[..k + 1] == [a[0]] + a[1..][..k] && b[..k + 1] == [b[0]] + b[1..][..k];
        assert FirstDifference(a, b, k + 1);
      }
      if k: nat :| FirstDifference(a, b, k) {
        assert k > 0;
        assert a[1..][..k - 1] == a[..k][1..] && b[1..][..k - 1] == b[..k][1..];
        assert FirstDifference(a[1..], b[1..], k - 1);
      }
    }
  }

  lemma {:induction false} LessIsTransitive(a: Bytes, b: Bytes, c: Bytes)
    requires Less(a, b) && Less(b, c)
    ensures Less(a, c)
  {
    if a != [] && a[0] == b[0] && b[0] == c[0] {
      LessIsTransitive(a[1..], b[1..], c[1..]);
    }
  }

  lemma {:induction false} LessIsTotal(a: Bytes, b: Bytes)
    ensures Less(a, b) || Less(b, a) || a == b
  {
    if a != [] && b != [] && a[0] == b[0] {
      LessIsTotal(a[1..], b[1..]);
      assert a == [a[0]] + a[1..] && b == [b[0]] + b[1..];
    }
  }

  lemma {:induction false} LessIsStrict(a: Bytes, b: Bytes)
    requires Less(a, b)
    ensures !Less(b, a) && a != b
  {
    if a != [] && a[0] == b[0] {
      LessIsStrict(a[1..], b[1..]);
    }
  }

  predicate Increasing(s: seq<Bytes>) {
    |s| <= 1 || (Less(s[0], s[1]) && Increasing(s[1..]))
  }

  lemma {:induction false} HeadIsLeast(s: seq<Bytes>, x: Bytes)
    requires s != [] && Increasing(s) && x in s[1..]
    ensures Less(s[0], x)
  {
    if x != s[1] {
      assert s[1..] == [s[1]] + s[1..][1..];
      HeadIsLeast(s[1..], x);
      LessIsTransitive(s[0], s[1], x);
    }
  }

  lemma NothingIn(s: seq<Bytes>)
    ensures s == [] || exists x :: x in s
  {
    if s != [] {
      assert s[0] in s;
    }
  }

  /** There is only one increasing list of a given set of names. */
  lemma {:induction false} IncreasingIsUnique(a: seq<Bytes>, b: seq<Bytes>)
    requires Increasing(a) && Increasing(b) && forall x :: x in a <==> x in b
    ensures a == b
  {
    if a == [] {
      NothingIn(b);
    } else {
      assert a[0] in b;
      assert b == [b[0]] + b[1..] && a == [a[0]] + a[1..];
      assert b[0] in a;
      if a[0] != b[0] {
        HeadIsLeast(a, b[0]);
        HeadIsLeast(b, a[0]);
        LessIsStrict(a[0], b[0]);
        assert false;
      }
      forall x
        ensures x in a[1..] <==> x in b[1..]
      {
        TailSkipsHead(a, x);
        TailSkipsHead(b, x);
      }
      IncreasingIsUnique(a[1..], b[1..]);
    }
  }

  lemma TailSkipsHead(s: seq<Bytes>, x: Bytes)
    requires s != [] && Increasing(s)
    ensures x in s[1..] <==> x in s && x != s[0]
  {
    assert s == [s[0]] + s[1..];
    if x in s[1..] {
      HeadIsLeast(s, x);
      LessIsStrict(s[0], x);
    }
  }

  function Insert(x: Bytes, s: seq<Bytes>): seq<Bytes> {
    if s == [] then [x] else if Less(x, s[0]) then [x] + s else [s[0]] + Insert(x, s[1..])
  }

  lemma {:induction false} InsertKeeps(x: Bytes, s: seq<Bytes>)
    requires Increasing(s) && x !in s
    ensures Increasing(Insert(x, s)) && Insert(x, s) != []
    ensures forall y :: y in Insert(x, s) <==> y == x || y in s
    ensures Insert(x, s)[0] == x || (s != [] && Insert(x, s)[0] == s[0])
  {
    if s != [] {
      assert s == [s[0]] + s[1..];
      if Less(x, s[0]) {
        assert ([x] + s)[1..] == s;
      } else {
        InsertKeeps(x, s[1..]);
        LessIsTotal(x, s[0]);
        assert ([s[0]] + Insert(x, s[1..]))[1..] == Insert(x, s[1..]);
      }
    }
  }

  function SortNames(order: seq<Bytes>): seq<Bytes> {
    if order == [] then [] else Insert(order[0], SortNames(order[1..]))
  }

  /** One iteration over a map: every key once, in any order. */
  ghost predicate Iterates(order: seq<Bytes>, fields: Stored) {
    Distinct(order) && forall x :: x in order <==> x in fields
  }

  lemma {:induction false} SortIsRight(order: seq<Bytes>)
    requires Distinct(order)
    ensures Increasing(SortNames(order))
    ensures forall x :: x in SortNames(order) <==> x in order
  {
    if order != [] {
      SortIsRight(order[1..]);
      assert order == [order[0]] + order[1..];
      InsertKeeps(order[0], SortNames(order[1..]));
    }
  }

  lemma {:induction false} IncreasingIsDistinct(s: seq<Bytes>)
    requires Increasing(s)
    ensures Distinct(s)
  {
    if s != [] {
      IncreasingIsDistinct(s[1..]);
      forall i, j | 0 <= i < j < |s|
        ensures s[i] != s[j]
      {
        assert s[j] == s[1..][j - 1];
        if i == 0 {
          TailSkipsHead(s, s[j]);
        } else {
          assert s[i] == s[1..][i - 1];
        }
      }
    }
  }

  /** The names sent do not depend on the order in which the map was walked. */
  lemma SortForgetsOrder(first: seq<Bytes>, second: seq<Bytes>, fields: Stored)
    requires Iterates(first, fields) && Iterates(second, fields)
    ensures SortNames(first) == SortNames(second)
  {
    SortIsRight(first);
    SortIsRight(second);
    IncreasingIsUnique(SortNames(first), SortNames(second));
  }

  // ---- capacity of a map ----

  function Size(fields: Stored, name: Bytes): nat {
    |name| + if name in fields then |fields[name]| else 0
  }

  function SumOf(fields: Stored, names: seq<Bytes>): nat {
    if names == [] then 0 else SumOf(fields, names[..|names| - 1]) + Size(fields, names[|names| - 1])
  }

  lemma {:induction false} SumWithout(fields: Stored, names: seq<Bytes>, k: nat)
    requires k < |names|
    ensures SumOf(fields, names) == SumOf(fields, names[..k] + names[k + 1..]) + Size(fields, names[k])
  {
    var rest, front := names[..k] + names[k + 1..], names[..|names| - 1];
    if k == |names| - 1 {
      assert rest == front;
    } else {
      SumWithout(fields, front, k);
      assert rest[..|rest| - 1] == front[..k] + front[k + 1..];
    }
  }

  lemma WithoutOne(s: seq<Bytes>, k: nat, rest: seq<Bytes>)
    requires k < |s| && Distinct(s) && rest == s[..k] + s[k + 1..]
    ensures Distinct(rest)
    ensures forall y :: y in rest <==> y in s && y != s[k]
  {
    assert s == s[..k] + [s[k]] + s[k + 1..];
  }

  lemma WithoutLast(s: seq<Bytes>)
    requires s != [] && Distinct(s)
    ensures Distinct(s[..|s| - 1])
    ensures forall y :: y in s[..|s| - 1] <==> y in s && y != s[|s| - 1]
  {
    assert s == s[..|s| - 1] + [s[|s| - 1]];
  }

  /** The running total over a map is the same for every iteration order. */
  lemma {:induction false} SumForgetsOrder(fields: Stored, a: seq<Bytes>, b: seq<Bytes>)
    requires Distinct(a) && Distinct(b) && forall x :: x in a <==> x in b
    ensures SumOf(fields, a) == SumOf(fields, b)
  {
    if a == [] {
      NothingIn(b);
    } else {
      var x, front := a[|a| - 1], a[..|a| - 1];
      assert x in b;
      var k :| 0 <= k < |b| && b[k] == x;
      var rest := b[..k] + b[k + 1..];
      SumWithout(fields, b, k);
      WithoutOne(b, k, rest);
      WithoutLast(a);
      forall y
        ensures y in front <==> y in rest
      {
        assert y in rest <==> y in b && y != x;
      }
      SumForgetsOrder(fields, front, rest);
    }
  }

  lemma {:induction false} SumGrows(fields: Stored, names: seq<Bytes>, n: nat)
    requires n <= |names|
    ensures SumOf(fields, names[..n]) <= SumOf(fields, names)
  {
    if n < |names| {
      SumGrows(fields, names[..|names| - 1], n);
      assert names[..|names| - 1][..n] == names[..n];
    } else {
      assert names[..n] == names;
    }
  }

  ghost predicate EntryOk(fields: Stored, name: Bytes) {
    1 <= |name| <= 1024 && (name in fields ==> |fields[name]| <= MAX_VALUE)
  }

  /** A map within every limit; the total is the one all iteration orders agree on. */
  ghost predicate WithinLimits(fields: Stored) {
    && |fields| <= MAX_FIELDS
    && (forall name :: name in fields ==> EntryOk(fields, name))
    && (forall order :: Iterates(order, fields) ==> SumOf(fields, order) <= MAX_HASH)
  }

  // ---- storing and loading ----

  function NamesIn(arguments: seq<Argument>): (s: seq<Bytes>)
    ensures |s| == |arguments|
  {
    seq(|arguments|, i requires 0 <= i < |arguments| => arguments[i].name)
  }

  ghost predicate Carries(arguments: seq<Argument>, fields: Stored) {
    forall i :: 0 <= i < |arguments| ==> arguments[i].name in fields && arguments[i].value == fields[arguments[i].name]
  }

  /** The argument list a map gives: its entries, in increasing name order. */
  ghost predicate ArgumentsFor(arguments: seq<Argument>, fields: Stored) {
    Increasing(NamesIn(arguments)) && Iterates(NamesIn(arguments), fields) && Carries(arguments, fields)
  }

  lemma ArgumentsAreUnique(first: seq<Argument>, second: seq<Argument>, fields: Stored)
    requires ArgumentsFor(first, fields) && ArgumentsFor(second, fields)
    ensures first == second
  {
    IncreasingIsUnique(NamesIn(first), NamesIn(second));
    forall i | 0 <= i < |first|
      ensures first[i] == second[i]
    {
      assert NamesIn(first)[i] == NamesIn(second)[i];
    }
  }

  lemma LimitsByOneOrder(fields: Stored, order: seq<Bytes>)
    requires Iterates(order, fields)
    ensures (forall o :: Iterates(o, fields) ==> SumOf(fields, o) <= MAX_HASH) <==> SumOf(fields, order) <= MAX_HASH
  {
    forall o | Iterates(o, fields)
      ensures SumOf(fields, o) == SumOf(fields, order)
    {
      SumForgetsOrder(fields, o, order);
    }
  }

  lemma CarryOne(arguments: seq<Argument>, fields: Stored, name: Bytes)
    requires Carries(arguments, fields) && name in fields
    ensures Carries(arguments + [Argument(name, fields[name])], fields)
    ensures NamesIn(arguments + [Argument(name, fields[name])]) == NamesIn(arguments) + [name]
  {
  }

  ghost predicate Known(fields: Stored, names: seq<Bytes>) {
    forall i :: 0 <= i < |names| ==> names[i] in fields
  }

  ghost predicate EntriesOk(fields: Stored, names: seq<Bytes>, n: nat)
    requires n <= |names|
  {
    forall i :: 0 <= i < n ==> EntryOk(fields, names[i])
  }

  lemma SumStep(fields: Stored, names: seq<Bytes>, n: nat)
    requires n < |names|
    ensures SumOf(fields, names[..n + 1]) == SumOf(fields, names[..n]) + Size(fields, names[n])
    ensures SumOf(fields, names[..n + 1]) <= SumOf(fields, names)
  {
    assert names[..n + 1][..n] == names[..n];
    SumGrows(fields, names, n + 1);
  }

  /** Check and count one entry. */
  method CheckEntry(fields: Stored, name: Bytes, badName: Code, total: nat) returns (r: Result<nat>)
    requires name in fields && total <= MAX_HASH
    ensures r.Ok? <==> EntryOk(fields, name) && total + Size(fields, name) <= MAX_HASH
    ensures r.Ok? ==> r.value == total + Size(fields, name)
    ensures r.Err? ==> r.code == if NameOk(name) then Capacity else badName
  {
    var value := fields[name];
    if !NameOk(name) {
      return Err(badName);
    }
    if |value| > MAX_VALUE {
      return Err(Capacity);
    }
    var sum := AddSize(total, |name| + |value|);
    return if sum.None? then Err(Capacity) else Ok(sum.value);
  }

  /** The first entry, in this order, that cannot be taken, and what it is refused for. */
  ghost predicate FirstFault(fields: Stored, names: seq<Bytes>, badName: Code, i: nat, code: Code) {
    && i < |names| && EntriesOk(fields, names, i) && SumOf(fields, names[..i]) <= MAX_HASH
    && (!EntryOk(fields, names[i]) || SumOf(fields, names[..i + 1]) > MAX_HASH)
    && code == if NameOk(names[i]) then Capacity else badName
  }

  lemma SumsGrow(fields: Stored, names: seq<Bytes>)
    ensures forall a, b :: 0 <= a <= b <= |names| ==> SumOf(fields, names[..a]) <= SumOf(fields, names[..b])
  {
    forall a, b | 0 <= a <= b <= |names|
      ensures SumOf(fields, names[..a]) <= SumOf(fields, names[..b])
    {
      SumGrows(fields, names[..b], a);
      assert names[..b][..a] == names[..a];
    }
  }

  /** So the order alone decides the error. */
  lemma FirstFaultIsUnique(fields: Stored, names: seq<Bytes>, badName: Code, i: nat, c: Code, j: nat, d: Code)
    requires FirstFault(fields, names, badName, i, c) && FirstFault(fields, names, badName, j, d)
    ensures i == j && c == d
  {
    SumsGrow(fields, names);
  }

  /** Walk the names in the given order, checking and counting each entry. */
  method Walk(fields: Stored, names: seq<Bytes>, badName: Code) returns (r: Result<seq<Argument>>)
    requires Known(fields, names)
    ensures r.Ok? <==> EntriesOk(fields, names, |names|) && SumOf(fields, names) <= MAX_HASH
    ensures r.Ok? ==> NamesIn(r.value) == names && Carries(r.value, fields)
    ensures r.Err? ==> exists i :: FirstFault(fields, names, badName, i, r.code)
  {
    var arguments: seq<Argument> := [];
    var total := 0;
    for i := 0 to |names|
      invariant total == SumOf(fields, names[..i]) <= MAX_HASH
      invariant EntriesOk(fields, names, i)
      invariant NamesIn(arguments) == names[..i] && Carries(arguments, fields)
    {
      SumStep(fields, names, i);
      var checked := CheckEntry(fields, names[i], badName, total);
      if checked.Err? {
        assert FirstFault(fields, names, badName, i, checked.code);
        return Err(checked.code);
      }
      total := checked.value;
      CarryOne(arguments, fields, names[i]);
      arguments := arguments + [Argument(names[i], fields[names[i]])];
    }
    assert names[..|names|] == names;
    r := Ok(arguments);
  }

  /** The limits of a map, read off one walk over it. */
  lemma LimitsByWalk(fields: Stored, names: seq<Bytes>)
    requires Iterates(names, fields)
    ensures Known(fields, names)
    ensures WithinLimits(fields) <==>
            |fields| <= MAX_FIELDS && EntriesOk(fields, names, |names|) && SumOf(fields, names) <= MAX_HASH
  {
    LimitsByOneOrder(fields, names);
    if EntriesOk(fields, names, |names|) {
      forall name | name in fields
        ensures EntryOk(fields, name)
      {
        assert name in names;
      }
    }
  }

  /** Check, sort and list the fields of a map; `order` is the order in which the runtime walks it. */
  method Store(fields: Stored, order: seq<Bytes>) returns (r: Result<seq<Argument>>)
    requires Iterates(order, fields)
    ensures r.Ok? <==> fields != map[] && WithinLimits(fields)
    ensures r.Ok? ==> ArgumentsFor(r.value, fields)
    ensures fields == map[] ==> r == Err(Invalid)
    ensures |fields| > MAX_FIELDS ==> r == Err(Capacity)
    ensures r.Err? && 0 < |fields| <= MAX_FIELDS ==>
            exists i :: FirstFault(fields, SortNames(order), Invalid, i, r.code)
  {
    if fields == map[] {
      return Err(Invalid);
    }
    if |fields| > MAX_FIELDS {
      return Err(Capacity);
    }
    var names := SortNames(order);
    SortIsRight(order);
    IncreasingIsDistinct(names);
    LimitsByWalk(fields, names);
    r := Walk(fields, names, Invalid);
  }

  /** Read a whole hash back; the driver's map is walked in any order. */
  method Load(hash: Stored, order: seq<Bytes>) returns (r: Result<Stored>)
    requires Iterates(order, hash)
    ensures r.Ok? <==> WithinLimits(hash)
    ensures r.Ok? ==> r.value == hash
    ensures |hash| > MAX_FIELDS ==> r == Err(Capacity)
    ensures r.Err? && |hash| <= MAX_FIELDS ==> exists i :: FirstFault(hash, order, Corrupt, i, r.code)
  {
    if |hash| > MAX_FIELDS {
      return Err(Capacity);
    }
    LimitsByWalk(hash, order);
    var walked := Walk(hash, order, Corrupt);
    if walked.Err? {
      return Err(walked.code);
    }
    CarriedEntries(map[], walked.value, hash);
    forall name
      ensures name in NamesIn(walked.value) <==> name in hash
    {
    }
    assert SetAll(map[], walked.value) == hash;
    r := Ok(SetAll(map[], walked.value));
  }

  lemma {:induction false} CarriedEntries(hash: Stored, arguments: seq<Argument>, fields: Stored)
    requires Carries(arguments, fields)
    ensures forall x :: x in SetAll(hash, arguments) <==> x in hash || x in NamesIn(arguments)
    ensures forall x :: x in SetAll(hash, arguments) ==>
              SetAll(hash, arguments)[x] == if x in NamesIn(arguments) then fields[x] else hash[x]
  {
    if arguments != [] {
      var front, last := arguments[..|arguments| - 1], arguments[|arguments| - 1];
      CarriedEntries(hash, front, fields);
      assert NamesIn(arguments) == NamesIn(front) + [last.name];
    }
  }

  /** Storing merges the fields into the hash: theirs win, the others stay. */
  lemma StoreMerges(hash: Stored, arguments: seq<Argument>, fields: Stored)
    requires ArgumentsFor(arguments, fields)
    ensures SetAll(hash, arguments) == hash + fields
  {
    CarriedEntries(hash, arguments, fields);
  }

  lemma MergeOfEmpty(hash: Stored, fields: Stored)
    ensures hash == map[] ==> hash + fields == fields
  {
  }

  /**
   * Store and then load, with independent iteration orders. The load gives back the merge exactly when
   * the merge is within the limits; a hash that was empty gives back the stored fields.
   */
  method StoreAndLoad(hash: Stored, fields: Stored, order: seq<Bytes>, back: seq<Bytes>)
    returns (stored: bool, loaded: Result<Stored>)
    requires Iterates(order, fields) && Iterates(back, hash + fields)
    ensures stored <==> fields != map[] && WithinLimits(fields)
    ensures stored ==> (loaded.Ok? <==> WithinLimits(hash + fields)) && (loaded.Ok? ==> loaded.value == hash + fields)
    ensures stored && hash == map[] ==> loaded == Ok(fields)
  {
    loaded := Err(Invalid);
    var sent := Store(fields, order);
    stored := sent.Ok?;
    if stored {
      StoreMerges(hash, sent.value, fields);
      MergeOfEmpty(hash, fields);
      loaded := Load(SetAll(hash, sent.value), back);
    }
  }

  // ---- a store that makes a hash unreadable ----

  function Full(): Stored {
    map[[1] := seq(MAX_HASH - 1, _ => 0)]
  }

  function Extra(): Stored {
    map[[2] := []]
  }

  lemma LoneLimits(fields: Stored, name: Bytes)
    requires fields.Keys == {name} && EntryOk(fields, name)
    ensures WithinLimits(fields) <==> Size(fields, name) <= MAX_HASH
  {
    assert Iterates([name], fields);
    LimitsByWalk(fields, [name]);
    assert |fields| == |fields.Keys| == 1;
    assert SumOf(fields, [name]) == SumOf(fields, []) + Size(fields, name);
  }

  /** The hash can be loaded, the fields can be stored, and after that the hash can no longer be loaded. */
  lemma StoreSpoilsLoad()
    ensures WithinLimits(Full()) && WithinLimits(Extra()) && Extra() != map[]
    ensures !WithinLimits(Full() + Extra())
  {
    LoneLimits(Full(), [1]);
    LoneLimits(Extra(), [2]);
    var both, names: seq<Bytes> := Full() + Extra(), [[1], [2]];
    assert names[0][0] != names[1][0];
    assert Iterates(names, both);
    LimitsByWalk(both, names);
    assert names[..1] == [[1]] && names[..1][..0] == [];
    assert SumOf(both, names) == SumOf(both, names[..1]) + Size(both, [2]);
    assert SumOf(both, names[..1]) == SumOf(both, []) + Size(both, [1]);
  }
}
