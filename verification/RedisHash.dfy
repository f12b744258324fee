/** Structs stored as Redis hashes: descriptor, capacity accounting, and the write and read paths. */
module RedisHash {
  import opened Common
  import N = RedisNumbers

  const MAX_FIELDS := 4096
  const MAX_NAME := 1024
  const MAX_VALUE := 524288
  const MAX_HASH := 524288
  const COMMA: Byte := 44

  datatype Code = Invalid | Capacity | Contract | Corrupt

  datatype Result<+T> = Ok(value: T) | Err(code: Code)

  /** Built-in field types. */
  datatype Kind = Bool | Int(bits: nat) | Uint(bits: nat) | Text | Blob
  {
    predicate Supported() {
      match this
      case Int(bits) => bits == 8 || bits == 16 || bits == 32 || bits == 64
      case Uint(bits) => bits == 8 || bits == 16 || bits == 32 || bits == 64
      case _ => true
    }
  }

  datatype Value = BoolValue(b: bool) | IntValue(i: int) | UintValue(n: nat) | BytesValue(bytes: Bytes)

  /** A value a variable of the type can hold. */
  ghost predicate Fits(kind: Kind, v: Value) {
    match kind
    case Bool => v.BoolValue?
    case Int(bits) => v.IntValue? && 1 <= bits <= 64 && -(N.Pow2(bits - 1) as int) <= v.i < N.Pow2(bits - 1)
    case Uint(bits) => v.UintValue? && 1 <= bits <= 64 && v.n < N.Pow2(bits)
    case Text => v.BytesValue?
    case Blob => v.BytesValue?
  }

  function ZeroOf(kind: Kind): Value {
    match kind
    case Bool => BoolValue(false)
    case Int(_) => IntValue(0)
    case Uint(_) => UintValue(0)
    case Text => BytesValue([])
    case Blob => BytesValue([])
  }

  // ---- one value ----

  function Spell(v: Value): Bytes {
    match v
    case BoolValue(b) => if b then [49] else [48]
    case IntValue(i) => N.PrintInt(i)
    case UintValue(n) => N.PrintUint(n)
    case BytesValue(bytes) => bytes
  }

  function Encode(v: Value): Result<Bytes> {
    if |Spell(v)| > MAX_VALUE then Err(Capacity) else Ok(Spell(v))
  }

  ghost function Decoded(kind: Kind, source: Bytes): Option<Value> {
    match kind
    case Bool =>
      if source == [48] then Some(BoolValue(false)) else if source == [49] then Some(BoolValue(true)) else None
    case Int(bits) => (match N.ParsedInt(source, bits) case None => None case Some(i) => Some(IntValue(i)))
    case Uint(bits) => (match N.ParsedUint(source, bits) case None => None case Some(n) => Some(UintValue(n)))
    case Text => Some(BytesValue(source))
    case Blob => Some(BytesValue(source))
  }

  method Decode(kind: Kind, source: Bytes) returns (r: Option<Value>)
    ensures r == Decoded(kind, source)
  {
    match kind
    case Bool =>
      if |source| == 1 && source[0] == 48 {
        assert source == [48];
        return Some(BoolValue(false));
      }
      if |source| == 1 && source[0] == 49 {
        assert source == [49];
        return Some(BoolValue(true));
      }
      return None;
    case Int(bits) =>
      var i := N.ParseInt(source, bits);
      return match i case None => None case Some(i) => Some(IntValue(i));
    case Uint(bits) =>
      var n := N.ParseUint(source, bits);
      return match n case None => None case Some(n) => Some(UintValue(n));
    case Text => return Some(BytesValue(source));
    case Blob => return Some(BytesValue(source));
  }

  /** Decoding undoes encoding, for every type and every value of it. */
  lemma ValueRoundTrip(kind: Kind, v: Value)
    requires Fits(kind, v)
    ensures Decoded(kind, Spell(v)) == Some(v)
  {
    match kind
    case Int(bits) => N.IntRoundTrip(v.i, bits);
    case Uint(bits) => N.UintRoundTrip(v.n, bits);
    case _ =>
  }

  /** A stored spelling is the only one that decodes to its value. */
  lemma SpellingIsUnique(kind: Kind, source: Bytes)
    requires Decoded(kind, source).Some?
    ensures Spell(Decoded(kind, source).value) == source && Fits(kind, Decoded(kind, source).value)
  {
    match kind
    case Int(bits) => N.IntSpelling(source, bits);
    case Uint(bits) => N.UintSpelling(source, bits);
    case _ =>
  }

  // ---- capacity ----

  /** Add a size to a running total; the total never passes the cap. */
  function AddSize(total: nat, size: nat): Option<nat> {
    if size > MAX_HASH || total > MAX_HASH - size then None else Some(total + size)
  }

  // ---- descriptors ----

  /** A field of the struct type: exported or not, with an optional tag, of a supported type or not. */
  datatype Member = Member(name: Bytes, exported: bool, tag: Option<Bytes>, kind: Option<Kind>)

  datatype Field = Field(index: nat, name: Bytes, kind: Kind)

  const DASH: Bytes := [45]

  predicate NameOk(name: Bytes) {
    0 < |name| <= MAX_NAME
  }

  function NameBytes(fields: seq<Field>): nat {
    if fields == [] then 0 else NameBytes(fields[..|fields| - 1]) + |fields[|fields| - 1].name|
  }

  /** The name a member is stored under, None when it is left out. */
  function StoredName(m: Member): Option<Bytes> {
    if !m.exported then None
    else match m.tag
      case None => Some(m.name)
      case Some(tag) => if tag == DASH then None else Some(tag)
  }

  predicate Typed(m: Member) {
    m.kind.Some? && m.kind.value.Supported()
  }

  /** The fields the first n members contribute; one of an unsupported type is only a placeholder. */
  ghost function Chosen(members: seq<Member>, n: nat): seq<Field>
    requires n <= |members|
  {
    if n == 0 then []
    else
      var m := members[n - 1];
      var front := Chosen(members, n - 1);
      match StoredName(m)
      case None => front
      case Some(name) => front + [Field(n - 1, name, if Typed(m) then m.kind.value else Bool)]
  }

  /** An exported member whose tag is not "-". */
  ghost predicate Kept(m: Member) {
    m.exported && m.tag != Some([45])
  }

  /** What a kept member is stored as: under its tag, if it has one, else under its own name. */
  ghost predicate StoredAs(m: Member, f: Field) {
    && f.name == (if m.tag.Some? then m.tag.value else m.name)
    && (m.kind.Some? && m.kind.value in KINDS ==> f.kind == m.kind.value)
  }

  /** The built-in types: widths that do not depend on the machine, strings and byte slices. */
  ghost const KINDS: set<Kind> :=
    {Bool, Int(8), Int(16), Int(32), Int(64), Uint(8), Uint(16), Uint(32), Uint(64), Text, Blob}

  /**
   * What a tag does: "-" leaves the member out, any other tag, the empty one included, replaces its name;
   * a member that is not exported is left out with any tag.  The kept members come in their own order.
   */
  lemma {:induction false} ChosenAreKept(members: seq<Member>, n: nat)
    requires n <= |members|
    ensures forall j :: 0 <= j < |Chosen(members, n)| ==>
              var f := Chosen(members, n)[j]; f.index < n && Kept(members[f.index]) && StoredAs(members[f.index], f)
    ensures forall j, k :: 0 <= j < k < |Chosen(members, n)| ==>
              Chosen(members, n)[j].index < Chosen(members, n)[k].index
  {
    if n > 0 {
      ChosenAreKept(members, n - 1);
    }
  }

  /** Every kept member is among the fields. */
  lemma {:induction false} KeptAreChosen(members: seq<Member>, n: nat, i: nat)
    requires i < n <= |members| && Kept(members[i])
    ensures exists j :: 0 <= j < |Chosen(members, n)| && Chosen(members, n)[j].index == i
  {
    if i < n - 1 {
      KeptAreChosen(members, n - 1, i);
      ChosenGrows(members, n - 1, n);
    } else {
      assert Chosen(members, n)[|Chosen(members, i)|].index == i;
    }
  }

  /** Names are usable and all different. */
  ghost predicate NamesOk(fields: seq<Field>) {
    && (forall i :: 0 <= i < |fields| ==> 1 <= |fields[i].name| <= 1024 && 44 !in fields[i].name)
    && (forall i, j :: 0 <= i < j < |fields| ==> fields[i].name != fields[j].name)
  }

  ghost predicate TypesOk(members: seq<Member>, n: nat)
    requires n <= |members|
  {
    forall i :: 0 <= i < n && Kept(members[i]) ==> members[i].kind.Some? && members[i].kind.value in KINDS
  }

  /** A struct type that can be stored. */
  ghost predicate Describable(members: seq<Member>) {
    var fields := Chosen(members, |members|);
    0 < |fields| <= MAX_FIELDS && NamesOk(fields) && NameBytes(fields) <= MAX_HASH && TypesOk(members, |members|)
  }

  lemma {:induction false} ChosenGrows(members: seq<Member>, i: nat, n: nat)
    requires i <= n <= |members|
    ensures Chosen(members, i) <= Chosen(members, n)
  {
    if i < n {
      ChosenGrows(members, i, n - 1);
    }
  }

  lemma {:induction false} NameBytesGrow(fields: seq<Field>, k: nat)
    requires k <= |fields|
    ensures NameBytes(fields[..k]) <= NameBytes(fields)
  {
    if k < |fields| {
      NameBytesGrow(fields[..|fields| - 1], k);
      assert fields[..|fields| - 1][..k] == fields[..k];
    } else {
      assert fields[..k] == fields;
    }
  }

  /** A fault in the first members is a fault of the whole type. */
  lemma FaultStays(members: seq<Member>, i: nat)
    requires i <= |members|
    ensures !NamesOk(Chosen(members, i)) ==> !Describable(members)
    ensures NameBytes(Chosen(members, i)) > MAX_HASH ==> !Describable(members)
  {
    var part, all := Chosen(members, i), Chosen(members, |members|);
    ChosenGrows(members, i, |members|);
    assert all[..|part|] == part;
    NameBytesGrow(all, |part|);
    if NamesOk(all) {
      assert forall k :: 0 <= k < |part| ==> part[k] == all[k];
    }
  }

  ghost function NamesOf(fields: seq<Field>): set<Bytes> {
    set k | 0 <= k < |fields| :: fields[k].name
  }

  lemma AppendName(fields: seq<Field>, f: Field)
    requires NamesOk(fields)
    ensures NamesOk(fields + [f]) <==> NameOk(f.name) && COMMA !in f.name && f.name !in NamesOf(fields)
    ensures NameBytes(fields + [f]) == NameBytes(fields) + |f.name|
    ensures NamesOf(fields + [f]) == NamesOf(fields) + {f.name}
  {
    var all := fields + [f];
    assert all[..|fields|] == fields && all[|fields|] == f;
    assert forall i :: 0 <= i < |fields| ==> all[i] == fields[i];
    assert NamesOf(all) == NamesOf(fields) + {f.name};
  }

  /** What the first n members leave behind when they hold no fault. */
  ghost predicate Built(members: seq<Member>, n: nat, fields: seq<Field>, names: set<Bytes>, nameBytes: nat) {
    && n <= |members|
    && fields == Chosen(members, n)
    && NamesOk(fields)
    && names == NamesOf(fields)
    && nameBytes == NameBytes(fields) <= MAX_HASH
  }

  /** Member i is the first that makes the names unusable, or only too long together. */
  ghost predicate FirstBadMember(members: seq<Member>, i: nat, code: Code) {
    && i < |members| && NamesOk(Chosen(members, i)) && NameBytes(Chosen(members, i)) <= MAX_HASH
    && (if NamesOk(Chosen(members, i + 1)) then code == Capacity && NameBytes(Chosen(members, i + 1)) > MAX_HASH
        else code == Contract)
  }

  /** Why a struct type is refused: for its first bad member, else for the number or the types of its fields. */
  ghost predicate Undescribed(members: seq<Member>, code: Code) {
    var fields := Chosen(members, |members|);
    || (exists i :: FirstBadMember(members, i, code))
    || (&& NamesOk(fields) && NameBytes(fields) <= MAX_HASH
        && if |fields| > 4096 then code == Capacity
           else code == Contract && (fields == [] || !TypesOk(members, |members|)))
  }

  lemma BadMember(members: seq<Member>, i: nat, code: Code)
    requires FirstBadMember(members, i, code)
    ensures !Describable(members)
  {
    FaultStays(members, i + 1);
  }

  ghost function FieldFor(members: seq<Member>, i: nat, name: Bytes): Field
    requires i < |members|
  {
    Field(i, name, if Typed(members[i]) then members[i].kind.value else Bool)
  }

  /** What one more stored member does to the fields before it. */
  lemma OneMore(members: seq<Member>, i: nat, name: Bytes, fields: seq<Field>, names: set<Bytes>, nameBytes: nat)
    requires i < |members| && StoredName(members[i]) == Some(name)
    requires Built(members, i, fields, names, nameBytes)
    ensures var usable := NameOk(name) && COMMA !in name && name !in names;
            && (!usable ==> FirstBadMember(members, i, Contract))
            && (usable && nameBytes + |name| > MAX_HASH ==> FirstBadMember(members, i, Capacity))
            && (usable && nameBytes + |name| <= MAX_HASH ==>
                  Built(members, i + 1, fields + [FieldFor(members, i, name)], names + {name}, nameBytes + |name|))
  {
    AppendName(fields, FieldFor(members, i, name));
    assert Chosen(members, i + 1) == fields + [FieldFor(members, i, name)];
  }

  /** One more stored member: its name is checked and counted, or the whole type is at fault. */
  method AddMember(
    members: seq<Member>, i: nat, name: Bytes, ghost fields: seq<Field>, names: set<Bytes>, nameBytes: nat)
    returns (r: Result<Field>, total: nat)
    requires i < |members| && StoredName(members[i]) == Some(name)
    requires Built(members, i, fields, names, nameBytes)
    ensures r.Err? ==> FirstBadMember(members, i, r.code)
    ensures r.Ok? ==> Built(members, i + 1, fields + [r.value], names + {name}, total)
  {
    total := nameBytes;
    OneMore(members, i, name, fields, names, nameBytes);
    if !NameOk(name) || COMMA in name || name in names {
      return Err(Contract), total;
    }
    var sum := AddSize(nameBytes, |name|);
    if sum.None? {
      return Err(Capacity), total;
    }
    return Ok(Field(i, name, if Typed(members[i]) then members[i].kind.value else Bool)), sum.value;
  }

  /** The stored ones among the first n members have supported types. */
  ghost predicate AllTyped(members: seq<Member>, n: nat)
    requires n <= |members|
  {
    n == 0 || (AllTyped(members, n - 1) && (StoredName(members[n - 1]).Some? ==> Typed(members[n - 1])))
  }

  lemma {:induction false} TypesMeaning(members: seq<Member>, n: nat)
    requires n <= |members|
    ensures AllTyped(members, n) <==> TypesOk(members, n)
  {
    if n > 0 {
      TypesMeaning(members, n - 1);
    }
  }

  /** Read all members into fields; the first bad one ends the reading. */
  method ReadMembers(members: seq<Member>) returns (r: Result<seq<Field>>, supported: bool)
    ensures r.Err? ==> exists i :: FirstBadMember(members, i, r.code)
    ensures r.Ok? ==>
              && r.value == Chosen(members, |members|) && NamesOk(r.value) && NameBytes(r.value) <= MAX_HASH
              && (supported <==> TypesOk(members, |members|))
  {
    var fields: seq<Field> := [];
    var names: set<Bytes> := {};
    var nameBytes := 0;
    supported := true;
    for i := 0 to |members|
      invariant Built(members, i, fields, names, nameBytes)
      invariant supported <==> AllTyped(members, i)
    {
      var stored := StoredName(members[i]);
      if stored.Some? {
        var added, total := AddMember(members, i, stored.value, fields, names, nameBytes);
        if added.Err? {
          return Err(added.code), false;
        }
        supported := supported && Typed(members[i]);
        fields, names, nameBytes := fields + [added.value], names + {stored.value}, total;
      }
    }
    TypesMeaning(members, |members|);
    r := Ok(fields);
  }

  /** The descriptor of a struct type; it exists exactly for describable types. */
  method BuildDescriptor(members: seq<Member>) returns (r: Result<seq<Field>>)
    ensures r.Ok? <==> Describable(members)
    ensures r.Ok? ==> r.value == Chosen(members, |members|)
    ensures r.Err? ==> Undescribed(members, r.code)
  {
    var supported;
    r, supported := ReadMembers(members);
    if r.Err? {
      ghost var i :| FirstBadMember(members, i, r.code);
      BadMember(members, i, r.code);
      return;
    }
    if |r.value| == 0 {
      return Err(Contract);
    }
    if |r.value| > MAX_FIELDS {
      return Err(Capacity);
    }
    if !supported {
      r := Err(Contract);
    }
  }

  // ---- writing and reading a struct ----

  type Stored = map<Bytes, Bytes>

  datatype Argument = Argument(name: Bytes, value: Bytes)

  /** The effect of one HSET: later arguments win, other fields stay. */
  function SetAll(hash: Stored, arguments: seq<Argument>): Stored {
    if arguments == [] then hash
    else SetAll(hash, arguments[..|arguments| - 1])[arguments[|arguments| - 1].name := arguments[|arguments| - 1].value]
  }

  /** A struct value: one value per described field. */
  ghost predicate Holds(fields: seq<Field>, record: seq<Value>) {
    |record| == |fields| && forall i :: 0 <= i < |fields| ==> Fits(fields[i].kind, record[i])
  }

  /** Bytes a record takes: names and spellings. */
  function RecordBytes(fields: seq<Field>, record: seq<Value>, n: nat): nat
    requires n <= |fields| == |record|
  {
    if n == 0 then 0 else RecordBytes(fields, record, n - 1) + |fields[n - 1].name| + |Spell(record[n - 1])|
  }

  function ArgumentsOf(fields: seq<Field>, record: seq<Value>, n: nat): (s: seq<Argument>)
    requires n <= |fields| == |record|
    ensures |s| == n
  {
    if n == 0 then [] else ArgumentsOf(fields, record, n - 1) + [Argument(fields[n - 1].name, Spell(record[n - 1]))]
  }

  /** A record is written when every value and the whole fit their limits. */
  ghost predicate Storable(fields: seq<Field>, record: seq<Value>)
    requires |fields| == |record|
  {
    && (forall i :: 0 <= i < |record| ==> |Spell(record[i])| <= MAX_VALUE)
    && RecordBytes(fields, record, |fields|) <= MAX_HASH
  }

  lemma {:induction false} RecordBytesGrow(fields: seq<Field>, record: seq<Value>, i: nat, n: nat)
    requires i <= n <= |fields| == |record|
    ensures RecordBytes(fields, record, i) <= RecordBytes(fields, record, n)
  {
    if i < n {
      RecordBytesGrow(fields, record, i, n - 1);
    }
  }

  /** Write a record; nothing is sent before every value has been encoded and counted. */
  method Set(hash: Stored, fields: seq<Field>, record: seq<Value>) returns (r: Result<Stored>, total: nat)
    requires |fields| == |record|
    ensures r.Ok? <==> Storable(fields, record)
    ensures r.Ok? ==> r.value == SetAll(hash, ArgumentsOf(fields, record, |fields|))
    ensures r.Ok? ==> total == RecordBytes(fields, record, |fields|)
    ensures r.Err? ==> r.code == Capacity
  {
    total := 0;
    var arguments: seq<Argument> := [];
    for i := 0 to |fields|
      invariant total == RecordBytes(fields, record, i) <= MAX_HASH
      invariant arguments == ArgumentsOf(fields, record, i)
      invariant forall j :: 0 <= j < i ==> |Spell(record[j])| <= MAX_VALUE
    {
      var encoded := Encode(record[i]);
      if encoded.Err? {
        return Err(encoded.code), 0;
      }
      var sum := AddSize(total, |fields[i].name| + |encoded.value|);
      if sum.None? {
        RecordBytesGrow(fields, record, i + 1, |fields|);
        return Err(Capacity), 0;
      }
      total := sum.value;
      arguments := arguments + [Argument(fields[i].name, encoded.value)];
    }
    r := Ok(SetAll(hash, arguments));
  }

  /** Bytes the read path counts: every name, and the values that are there. */
  function ReplyBytes(fields: seq<Field>, hash: Stored, n: nat): nat
    requires n <= |fields|
  {
    if n == 0 then 0
    else ReplyBytes(fields, hash, n - 1) + |fields[n - 1].name|
         + (if fields[n - 1].name in hash then |hash[fields[n - 1].name]| else 0)
  }

  lemma {:induction false} ReplyBytesGrow(fields: seq<Field>, hash: Stored, i: nat, n: nat)
    requires i <= n <= |fields|
    ensures ReplyBytes(fields, hash, i) <= ReplyBytes(fields, hash, n)
  {
    if i < n {
      ReplyBytesGrow(fields, hash, i, n - 1);
    }
  }

  /** What one field of a read gives. */
  ghost function FieldValue(f: Field, hash: Stored): Option<Value> {
    if f.name !in hash then Some(ZeroOf(f.kind)) else Decoded(f.kind, hash[f.name])
  }

  /** A missing field reads as false, 0 or empty, which is also what a stored "0" or empty string reads as. */
  lemma MissingIsZero(f: Field, hash: Stored)
    requires f.kind in KINDS && f.name !in hash
    ensures FieldValue(f, hash) == Some(
              match f.kind
              case Bool => BoolValue(false)
              case Int(_) => IntValue(0)
              case Uint(_) => UintValue(0)
              case Text => BytesValue([])
              case Blob => BytesValue([]))
    ensures FieldValue(f, hash) == FieldValue(f, hash[f.name := if f.kind.Text? || f.kind.Blob? then [] else [48]])
  {
    var zero := if f.kind.Text? || f.kind.Blob? then [] else [48];
    assert N.PrintInt(0) == N.PrintUint(0) == [48];
    assert Spell(ZeroOf(f.kind)) == zero;
    ValueRoundTrip(f.kind, ZeroOf(f.kind));
  }

  ghost predicate Readable(fields: seq<Field>, hash: Stored) {
    && (forall i :: 0 <= i < |fields| ==>
          FieldValue(fields[i], hash).Some? && (fields[i].name in hash ==> |hash[fields[i].name]| <= MAX_VALUE))
    && ReplyBytes(fields, hash, |fields|) <= MAX_HASH
  }

  /** Field i is the first one a read cannot take: too long, alone or with those before it, or else damaged. */
  ghost predicate FirstBadField(fields: seq<Field>, hash: Stored, i: nat, code: Code) {
    && i < |fields| && Readable(fields[..i], hash)
    && (if || ReplyBytes(fields, hash, i + 1) > MAX_HASH
           || (fields[i].name in hash && |hash[fields[i].name]| > MAX_VALUE)
        then code == Capacity
        else code == Corrupt && FieldValue(fields[i], hash) == None)
  }

  lemma {:induction false} ReplyBytesOfFront(fields: seq<Field>, hash: Stored, i: nat, n: nat)
    requires i <= n <= |fields|
    ensures ReplyBytes(fields[..n], hash, i) == ReplyBytes(fields, hash, i)
  {
    if i > 0 {
      ReplyBytesOfFront(fields, hash, i - 1, n);
    }
  }

  /** Read a record; a missing field keeps its zero value, and any damage fails the whole read. */
  method Get(hash: Stored, fields: seq<Field>) returns (r: Result<seq<Value>>, total: nat)
    ensures r.Ok? <==> Readable(fields, hash)
    ensures r.Ok? ==>
              && |r.value| == |fields|
              && forall i :: 0 <= i < |fields| ==> FieldValue(fields[i], hash) == Some(r.value[i])
    ensures r.Ok? ==> total == ReplyBytes(fields, hash, |fields|)
    ensures r.Err? ==> exists i :: FirstBadField(fields, hash, i, r.code)
  {
    total := 0;
    var record: seq<Value> := [];
    for i := 0 to |fields|
      invariant total == ReplyBytes(fields, hash, i) <= MAX_HASH && |record| == i
      invariant forall j :: 0 <= j < i ==> FieldValue(fields[j], hash) == Some(record[j])
      invariant forall j :: 0 <= j < i && fields[j].name in hash ==> |hash[fields[j].name]| <= MAX_VALUE
    {
      ReplyBytesGrow(fields, hash, i + 1, |fields|);
      ReplyBytesOfFront(fields, hash, i, i);
      assert Readable(fields[..i], hash);
      var sum := AddSize(total, |fields[i].name|);
      if sum.None? {
        assert FirstBadField(fields, hash, i, Capacity);
        return Err(Capacity), 0;
      }
      total := sum.value;
      if fields[i].name !in hash {
        record := record + [ZeroOf(fields[i].kind)];
      } else {
        var value := hash[fields[i].name];
        if |value| > MAX_VALUE {
          assert FirstBadField(fields, hash, i, Capacity);
          return Err(Capacity), 0;
        }
        sum := AddSize(total, |value|);
        if sum.None? {
          assert FirstBadField(fields, hash, i, Capacity);
          return Err(Capacity), 0;
        }
        total := sum.value;
        var decoded := Decode(fields[i].kind, value);
        if decoded.None? {
          assert FirstBadField(fields, hash, i, Corrupt);
          return Err(Corrupt), 0;
        }
        record := record + [decoded.value];
      }
    }
    r := Ok(record);
  }

  lemma {:induction false} SetOthers(hash: Stored, fields: seq<Field>, record: seq<Value>, n: nat, name: Bytes)
    requires n <= |fields| == |record| && forall i :: 0 <= i < n ==> fields[i].name != name
    ensures var after := SetAll(hash, ArgumentsOf(fields, record, n));
            (name in after <==> name in hash) && (name in hash ==> after[name] == hash[name])
  {
    if n > 0 {
      SetOthers(hash, fields, record, n - 1, name);
      assert ArgumentsOf(fields, record, n)[..n - 1] == ArgumentsOf(fields, record, n - 1);
    }
  }

  lemma {:induction false} SetField(hash: Stored, fields: seq<Field>, record: seq<Value>, n: nat, i: nat)
    requires i < n <= |fields| == |record| && NamesOk(fields)
    ensures var after := SetAll(hash, ArgumentsOf(fields, record, n));
            fields[i].name in after && after[fields[i].name] == Spell(record[i])
  {
    assert ArgumentsOf(fields, record, n)[..n - 1] == ArgumentsOf(fields, record, n - 1);
    if i < n - 1 {
      SetField(hash, fields, record, n - 1, i);
      assert fields[i].name != fields[n - 1].name;
    }
  }

  lemma {:induction false} BytesAgree(fields: seq<Field>, record: seq<Value>, hash: Stored, n: nat)
    requires n <= |fields| == |record|
    requires forall i :: 0 <= i < |fields| ==> fields[i].name in hash && hash[fields[i].name] == Spell(record[i])
    ensures ReplyBytes(fields, hash, n) == RecordBytes(fields, record, n)
  {
    if n > 0 {
      BytesAgree(fields, record, hash, n - 1);
    }
  }

  /**
   * Whatever the hash held before: after an accepted write the read accepts, counts the same bytes
   * and returns the record; fields outside the type are untouched.
   */
  lemma SetThenGet(hash: Stored, fields: seq<Field>, record: seq<Value>)
    requires NamesOk(fields) && Holds(fields, record) && Storable(fields, record)
    ensures var after := SetAll(hash, ArgumentsOf(fields, record, |fields|));
            && Readable(fields, after)
            && ReplyBytes(fields, after, |fields|) == RecordBytes(fields, record, |fields|) <= MAX_HASH
            && (forall i :: 0 <= i < |fields| ==> FieldValue(fields[i], after) == Some(record[i]))
            && (forall name :: (forall i :: 0 <= i < |fields| ==> fields[i].name != name) ==>
                  (name in after <==> name in hash) && (name in hash ==> after[name] == hash[name]))
  {
    var after := SetAll(hash, ArgumentsOf(fields, record, |fields|));
    forall i | 0 <= i < |fields|
      ensures fields[i].name in after && after[fields[i].name] == Spell(record[i])
      ensures FieldValue(fields[i], after) == Some(record[i])
    {
      SetField(hash, fields, record, |fields|, i);
      ValueRoundTrip(fields[i].kind, record[i]);
    }
    BytesAgree(fields, record, after, |fields|);
    forall name | forall i :: 0 <= i < |fields| ==> fields[i].name != name
      ensures (name in after <==> name in hash) && (name in hash ==> after[name] == hash[name])
    {
      SetOthers(hash, fields, record, |fields|, name);
    }
  }

  /** The two paths run one after the other. */
  method WriteAndRead(hash: Stored, fields: seq<Field>, record: seq<Value>)
    returns (ok: bool, back: seq<Value>, after: Stored)
    requires NamesOk(fields) && Holds(fields, record)
    ensures ok <==> Storable(fields, record)
    ensures ok ==> back == record
    ensures !ok ==> after == hash
  {
    back, after := [], hash;
    var written, sent := Set(hash, fields, record);
    ok := written.Ok?;
    if ok {
      after := written.value;
      var read, received := Get(after, fields);
      SetThenGet(hash, fields, record);
      assert sent == received;
      back := read.value;
    }
  }
}
