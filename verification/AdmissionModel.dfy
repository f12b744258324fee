/** Admission of a process by the Pulsar: the attempt state machine and the check of a response. */
module AdmissionModel {
  import opened Common

  datatype Role = Star | Planet | Polaris | Astrolabe

  datatype Member = Member(
    galaxy: string, id: Bytes, principal: Bytes, address: string, epoch: nat, role: Role, group: string)

  datatype Config = Config(
    galaxy: string, group: string, role: Role, advertise: string, maxMembers: nat, maxFrame: nat)

  /** Signature check, decoding and address parsing, which belong to other components. */
  datatype Env = Env(
    verify: (Bytes, Bytes) -> Option<Member>,
    decode: Bytes -> Option<Member>,
    format: string -> Option<string>,
    principal: Bytes)

  datatype Hello = Hello(maxFrame: nat, admission: Bytes, signature: Bytes)

  datatype Response = Response(pulse: string, members: seq<Bytes>, admission: Bytes, signature: Bytes)

  datatype Code = Cancelled | Timeout | Transport | Identity | Capacity | Decode

  datatype Joined = Joined(pulse: string, local: Member, members: seq<Member>, hello: Hello, services: seq<Member>)

  datatype Result<+T> = Success(value: T) | Failure(code: Code)

  const DIRECTORY := 8192
  const CANDIDATES := 8

  // ---- checking a response ----

  /** The directory split into stars and control services. */
  datatype Directory = Directory(members: seq<Member>, services: seq<Member>)

  predicate Clash(a: Member, b: Member) {
    a.id == b.id || a.principal == b.principal || a.address == b.address
  }

  /** One round of the sorting loop. */
  function SortOne(env: Env, config: Config, local: Member, d: Directory, encoded: Bytes): Result<Directory> {
    match env.decode(encoded)
    case None => Failure(Decode)
    case Some(m) =>
      if m.galaxy != config.galaxy then Failure(Identity)
      else if m.role == Polaris && config.role == Star then
        if d.services != [] || Clash(m, local) then Failure(Identity)
        else Success(d.(services := d.services + [m]))
      else if m.role != Star then Failure(Identity)
      else Success(d.(members := d.members + [m]))
  }

  /** The loop over the first entries; the first bad entry ends it. */
  function SortAll(env: Env, config: Config, local: Member, encoded: seq<Bytes>): Result<Directory> {
    if encoded == [] then Success(Directory([], []))
    else
      var front := SortAll(env, config, local, encoded[..|encoded| - 1]);
      if front.Failure? then front else SortOne(env, config, local, front.value, Last(encoded))
  }

  predicate LocalMatches(env: Env, config: Config, prior: Option<Member>, local: Member) {
    && local.galaxy == config.galaxy && local.group == config.group && local.role == config.role
    && local.address == config.advertise && local.principal == env.principal
    && (prior.Some? ==> prior.value == local)
  }

  /** The response check; `prior` is the identity installed by an earlier success. */
  function Validate(env: Env, config: Config, prior: Option<Member>, r: Response): Result<Joined> {
    var pulse := if r.pulse == "" then Some("") else env.format(r.pulse);
    if pulse.None? then Failure(Identity)
    else if |r.members| > DIRECTORY || (config.role == Planet && |r.members| > CANDIDATES) then Failure(Capacity)
    else
      var local := env.verify(r.admission, r.signature);
      if local.None? || !LocalMatches(env, config, prior, local.value) then Failure(Identity)
      else
        var sorted := SortAll(env, config, local.value, r.members);
        if sorted.Failure? then Failure(sorted.code)
        else
          var d := sorted.value;
          if |d.members| > config.maxMembers then Failure(Capacity)
          else if config.role == Star && local.value !in d.members then Failure(Identity)
          else if d.services != [] && exists m :: m in d.members && Clash(m, d.services[0]) then Failure(Identity)
          else
            var hello := Hello(config.maxFrame, r.admission, r.signature);
            Success(Joined(pulse.value, local.value, d.members, hello, d.services))
  }

  // ---- what acceptance means, without an order ----

  /** Two members share an id, a principal or an address. */
  ghost predicate Shares(a: Member, b: Member) {
    a.id == b.id || a.principal == b.principal || a.address == b.address
  }

  /** The verified identity is that of this deployment, and that of an earlier success. */
  ghost predicate IsOurs(env: Env, config: Config, prior: Option<Member>, local: Member) {
    && local.galaxy == config.galaxy && local.group == config.group && local.role == config.role
    && local.address == config.advertise && local.principal == env.principal
    && (prior == None || prior == Some(local))
  }

  ghost predicate IsStar(env: Env, e: Bytes) {
    env.decode(e).Some? && env.decode(e).value.role == Star
  }

  ghost predicate IsService(env: Env, config: Config, e: Bytes) {
    env.decode(e).Some? && env.decode(e).value.role == Polaris && config.role == Star
  }

  /** A directory as an unordered collection: who may be in it. */
  ghost predicate Entries(env: Env, config: Config, local: Member, all: multiset<Bytes>) {
    && (forall e :: e in all ==> env.decode(e).Some? && env.decode(e).value.galaxy == config.galaxy)
    && (forall e :: e in all ==> IsStar(env, e) || IsService(env, config, e))
    && (forall e :: e in all && IsService(env, config, e) ==> all[e] == 1 && !Shares(env.decode(e).value, local))
    && (forall e, f :: e in all && f in all && IsService(env, config, e) && IsService(env, config, f) ==> e == f)
  }

  /** The stars of a collection with at most one service. */
  ghost function Stars(env: Env, config: Config, all: multiset<Bytes>): nat {
    if exists e :: e in all && IsService(env, config, e) then |all| - 1 else |all|
  }

  /** The service shares no id, principal or address with a star. */
  ghost predicate Apart(env: Env, config: Config, all: multiset<Bytes>) {
    forall e, f :: e in all && f in all && IsService(env, config, e) && IsStar(env, f) ==>
      !Shares(env.decode(f).value, env.decode(e).value)
  }

  ghost predicate Acceptable(env: Env, config: Config, prior: Option<Member>,
                             pulse: string, admission: Bytes, signature: Bytes, all: multiset<Bytes>) {
    && (pulse == "" || env.format(pulse).Some?)
    && |all| <= 8192 && (config.role == Planet ==> |all| <= 8)
    && env.verify(admission, signature).Some?
    && var local := env.verify(admission, signature).value;
       && IsOurs(env, config, prior, local)
       && Entries(env, config, local, all)
       && Stars(env, config, all) <= config.maxMembers
       && (config.role == Star ==> exists e :: e in all && env.decode(e) == Some(local))
       && Apart(env, config, all)
  }

  /** Decoded entries, in order. */
  function Decoded(env: Env, encoded: seq<Bytes>): seq<Member> {
    if encoded == [] then []
    else Decoded(env, encoded[..|encoded| - 1]) +
         (match env.decode(Last(encoded)) case None => [] case Some(m) => [m])
  }

  ghost function Services(env: Env, config: Config, encoded: seq<Bytes>): seq<Member> {
    if encoded == [] then []
    else Services(env, config, encoded[..|encoded| - 1]) +
         (if IsService(env, config, Last(encoded)) then [env.decode(Last(encoded)).value] else [])
  }

  ghost function StarList(env: Env, config: Config, encoded: seq<Bytes>): seq<Member> {
    if encoded == [] then []
    else StarList(env, config, encoded[..|encoded| - 1]) +
         (if IsStar(env, Last(encoded)) && !IsService(env, config, Last(encoded)) then
            [env.decode(Last(encoded)).value]
          else [])
  }

  /** Every entry of the list may stand in the directory, and only one of them is a service. */
  ghost predicate Sound(env: Env, config: Config, local: Member, encoded: seq<Bytes>) {
    && (forall i {:trigger encoded[i]} :: 0 <= i < |encoded| ==>
          && env.decode(encoded[i]).Some? && env.decode(encoded[i]).value.galaxy == config.galaxy
          && (IsStar(env, encoded[i]) || IsService(env, config, encoded[i]))
          && (IsService(env, config, encoded[i]) ==> !Clash(env.decode(encoded[i]).value, local)))
    && (forall i, j :: 0 <= i < j < |encoded| ==>
          !(IsService(env, config, encoded[i]) && IsService(env, config, encoded[j])))
  }

  /** The loop succeeds exactly on sound lists, and splits them without losing an entry. */
  /** The loop has gone over exactly a sound list, and has split it. */
  ghost predicate SortsRight(env: Env, config: Config, local: Member, encoded: seq<Bytes>) {
    var r := SortAll(env, config, local, encoded);
    && (r.Success? <==> Sound(env, config, local, encoded))
    && (r.Success? ==> r.value == Directory(StarList(env, config, encoded), Services(env, config, encoded)))
  }

  lemma {:induction false} SortMeaning(env: Env, config: Config, local: Member, encoded: seq<Bytes>)
    ensures SortsRight(env, config, local, encoded)
  {
    if encoded != [] {
      var front, last := encoded[..|encoded| - 1], Last(encoded);
      SortMeaning(env, config, local, front);
      SortSnoc(env, config, local, front, last);
      assert encoded == front + [last];
    }
  }

  lemma SortSnoc(env: Env, config: Config, local: Member, front: seq<Bytes>, last: Bytes)
    requires SortsRight(env, config, local, front)
    ensures SortsRight(env, config, local, front + [last])
  {
    var all := front + [last];
    assert all[..|front|] == front && Last(all) == last;
    ServicesEmpty(env, config, front);
    if Sound(env, config, local, front) {
      SortStepMeaning(env, config, local, front, last);
    } else {
      UnsoundStays(env, config, local, front, last);
    }
  }

  lemma UnsoundStays(env: Env, config: Config, local: Member, front: seq<Bytes>, last: Bytes)
    requires !Sound(env, config, local, front)
    ensures !Sound(env, config, local, front + [last])
  {
    assert forall i :: 0 <= i < |front| ==> front[i] == (front + [last])[i];
  }

  lemma SortStepMeaning(env: Env, config: Config, local: Member, front: seq<Bytes>, last: Bytes)
    requires Sound(env, config, local, front)
    requires Services(env, config, front) == [] <==> forall i :: 0 <= i < |front| ==> !IsService(env, config, front[i])
    ensures var d := Directory(StarList(env, config, front), Services(env, config, front));
            SortOne(env, config, local, d, last).Success?
            <==> Sound(env, config, local, front + [last])
  {
    var all := front + [last];
    var n := |front|;
    assert all[n] == last;
    assert forall i :: 0 <= i < n ==> all[i] == front[i];
    if Sound(env, config, local, all) {
      if IsService(env, config, last) {
        assert forall i :: 0 <= i < n ==> !IsService(env, config, all[i]);
      }
    }
  }

  lemma {:induction false} ServicesEmpty(env: Env, config: Config, encoded: seq<Bytes>)
    ensures Services(env, config, encoded) == [] <==>
            forall i :: 0 <= i < |encoded| ==> !IsService(env, config, encoded[i])
  {
    if encoded != [] {
      var front := encoded[..|encoded| - 1];
      ServicesEmpty(env, config, front);
      assert forall i :: 0 <= i < |front| ==> front[i] == encoded[i];
    }
  }

  lemma {:induction false} FindTwo(s: seq<Bytes>, e: Bytes) returns (i: nat, j: nat)
    requires multiset(s)[e] >= 2
    ensures i < j < |s| && s[i] == s[j] == e
  {
    var front, last := s[..|s| - 1], Last(s);
    assert s == front + [last];
    if last == e {
      assert multiset(s) == multiset(front) + multiset{last};
      assert e in multiset(front);
      assert e in front;
      i :| 0 <= i < |front| && front[i] == e;
      j := |s| - 1;
    } else {
      i, j := FindTwo(front, e);
    }
  }

  lemma SoundIsEntries(env: Env, config: Config, local: Member, encoded: seq<Bytes>)
    ensures Sound(env, config, local, encoded) <==> Entries(env, config, local, multiset(encoded))
  {
    if Sound(env, config, local, encoded) {
      EntriesOfSound(env, config, local, encoded);
    }
    if Entries(env, config, local, multiset(encoded)) {
      SoundOfEntries(env, config, local, encoded);
    }
  }

  lemma SoundOfEntries(env: Env, config: Config, local: Member, encoded: seq<Bytes>)
    requires Entries(env, config, local, multiset(encoded))
    ensures Sound(env, config, local, encoded)
  {
    assert forall i :: 0 <= i < |encoded| ==> encoded[i] in multiset(encoded);
    forall i, j | 0 <= i < j < |encoded|
      ensures !(IsService(env, config, encoded[i]) && IsService(env, config, encoded[j]))
    {
      if IsService(env, config, encoded[i]) && IsService(env, config, encoded[j]) {
        assert encoded[i] == encoded[j];
        RepeatedCounts(encoded, i, j);
        assert false;
      }
    }
  }

  lemma EntriesOfSound(env: Env, config: Config, local: Member, encoded: seq<Bytes>)
    requires Sound(env, config, local, encoded)
    ensures Entries(env, config, local, multiset(encoded))
  {
    var all := multiset(encoded);
    forall e | e in all && IsService(env, config, e)
      ensures all[e] == 1
    {
      if all[e] >= 2 {
        var i, j := FindTwo(encoded, e);
        assert false;
      }
    }
    forall e | e in all
      ensures exists i :: 0 <= i < |encoded| && encoded[i] == e
    {
      assert e in encoded;
    }
  }

  lemma {:induction false} StarListMembers(env: Env, config: Config, encoded: seq<Bytes>)
    ensures forall m :: m in StarList(env, config, encoded) <==>
              exists i :: 0 <= i < |encoded| && IsStar(env, encoded[i]) && env.decode(encoded[i]) == Some(m)
  {
    if encoded != [] {
      var front := encoded[..|encoded| - 1];
      StarListMembers(env, config, front);
      assert encoded == front + [Last(encoded)];
    }
  }

  lemma {:induction false} ServicesMembers(env: Env, config: Config, encoded: seq<Bytes>)
    ensures forall m :: m in Services(env, config, encoded) <==>
              exists i :: 0 <= i < |encoded| && IsService(env, config, encoded[i]) && env.decode(encoded[i]) == Some(m)
  {
    if encoded != [] {
      var front := encoded[..|encoded| - 1];
      ServicesMembers(env, config, front);
      assert encoded == front + [Last(encoded)];
    }
  }

  lemma SoundPrefix(env: Env, config: Config, local: Member, encoded: seq<Bytes>)
    requires encoded != [] && Sound(env, config, local, encoded)
    ensures Sound(env, config, local, encoded[..|encoded| - 1])
  {
    var front := encoded[..|encoded| - 1];
    assert forall i :: 0 <= i < |front| ==> front[i] == encoded[i];
  }

  /** Nothing of the decoded directory is lost or invented. */
  lemma {:induction false} SplitIsExact(env: Env, config: Config, local: Member, encoded: seq<Bytes>)
    requires Sound(env, config, local, encoded)
    ensures |StarList(env, config, encoded)| + |Services(env, config, encoded)| == |encoded|
    ensures multiset(StarList(env, config, encoded)) + multiset(Services(env, config, encoded)) ==
            multiset(Decoded(env, encoded))
  {
    if encoded != [] {
      var front, last := encoded[..|encoded| - 1], Last(encoded);
      SoundPrefix(env, config, local, encoded);
      SplitIsExact(env, config, local, front);
      assert last == encoded[|front|];
      var m := env.decode(last).value;
      assert Decoded(env, encoded) == Decoded(env, front) + [m];
      if IsService(env, config, last) {
        assert Services(env, config, encoded) == Services(env, config, front) + [m];
        assert StarList(env, config, encoded) == StarList(env, config, front);
      } else {
        assert Services(env, config, encoded) == Services(env, config, front);
        assert StarList(env, config, encoded) == StarList(env, config, front) + [m];
      }
    }
  }

  lemma {:induction false} OneService(env: Env, config: Config, local: Member, encoded: seq<Bytes>)
    requires Sound(env, config, local, encoded)
    ensures |Services(env, config, encoded)| <= 1
  {
    if encoded != [] {
      var front, n := encoded[..|encoded| - 1], |encoded| - 1;
      SoundPrefix(env, config, local, encoded);
      OneService(env, config, local, front);
      if IsService(env, config, encoded[n]) {
        ServicesEmpty(env, config, front);
        assert forall i :: 0 <= i < n ==> front[i] == encoded[i] && !IsService(env, config, encoded[i]);
      }
    }
  }

  lemma StarsCounted(env: Env, config: Config, local: Member, encoded: seq<Bytes>)
    requires Sound(env, config, local, encoded)
    ensures Stars(env, config, multiset(encoded)) == |StarList(env, config, encoded)|
  {
    SplitIsExact(env, config, local, encoded);
    OneService(env, config, local, encoded);
    ServicesEmpty(env, config, encoded);
    assert forall e :: e in multiset(encoded) <==> e in encoded;
  }

  /** Some star of the lists clashes with the service. */
  ghost predicate ListsClash(stars: seq<Member>, services: seq<Member>) {
    services != [] && exists m :: m in stars && Clash(m, services[0])
  }

  lemma ListsClashSound(env: Env, config: Config, local: Member, encoded: seq<Bytes>)
    requires Sound(env, config, local, encoded)
    requires ListsClash(StarList(env, config, encoded), Services(env, config, encoded))
    ensures !Apart(env, config, multiset(encoded))
  {
    var stars, services := StarList(env, config, encoded), Services(env, config, encoded);
    StarListMembers(env, config, encoded);
    ServicesMembers(env, config, encoded);
    var m :| m in stars && Clash(m, services[0]);
    var i :| 0 <= i < |encoded| && IsStar(env, encoded[i]) && env.decode(encoded[i]) == Some(m);
    assert services[0] in services;
    var j :| 0 <= j < |encoded| && IsService(env, config, encoded[j]) && env.decode(encoded[j]) == Some(services[0]);
    assert encoded[i] in multiset(encoded) && encoded[j] in multiset(encoded);
  }

  lemma ListsClashComplete(env: Env, config: Config, local: Member, encoded: seq<Bytes>, e: Bytes, f: Bytes)
    requires Sound(env, config, local, encoded) && e in multiset(encoded) && f in multiset(encoded)
    requires IsService(env, config, e) && IsStar(env, f) && Clash(env.decode(f).value, env.decode(e).value)
    ensures ListsClash(StarList(env, config, encoded), Services(env, config, encoded))
  {
    var services := Services(env, config, encoded);
    StarListMembers(env, config, encoded);
    ServicesMembers(env, config, encoded);
    OneService(env, config, local, encoded);
    assert e in encoded && f in encoded;
    assert env.decode(e).value in services;
    assert env.decode(f).value in StarList(env, config, encoded);
    assert services == [env.decode(e).value];
  }

  lemma ClashMeaning(env: Env, config: Config, local: Member, encoded: seq<Bytes>)
    requires Sound(env, config, local, encoded)
    ensures ListsClash(StarList(env, config, encoded), Services(env, config, encoded)) <==>
            !Apart(env, config, multiset(encoded))
  {
    if ListsClash(StarList(env, config, encoded), Services(env, config, encoded)) {
      ListsClashSound(env, config, local, encoded);
    } else if !Apart(env, config, multiset(encoded)) {
      var e, f :| e in multiset(encoded) && f in multiset(encoded) && IsService(env, config, e) && IsStar(env, f)
                  && Clash(env.decode(f).value, env.decode(e).value);
      ListsClashComplete(env, config, local, encoded, e, f);
    }
  }

  lemma OwnEntryMeaning(env: Env, config: Config, local: Member, encoded: seq<Bytes>)
    requires config.role == Star ==> local.role == Star
    ensures config.role == Star ==>
              (local in StarList(env, config, encoded) <==>
                exists e :: e in multiset(encoded) && env.decode(e) == Some(local))
  {
    StarListMembers(env, config, encoded);
    if config.role == Star {
      if local in StarList(env, config, encoded) {
        var i :| 0 <= i < |encoded| && IsStar(env, encoded[i]) && env.decode(encoded[i]) == Some(local);
        assert encoded[i] in multiset(encoded);
      }
      forall e | e in multiset(encoded) && env.decode(e) == Some(local)
        ensures local in StarList(env, config, encoded)
      {
        assert e in encoded;
      }
    }
  }

  /** A response is accepted exactly when it satisfies the unordered description. */
  lemma ValidateMeaning(env: Env, config: Config, prior: Option<Member>, r: Response)
    ensures Validate(env, config, prior, r).Success? <==>
            Acceptable(env, config, prior, r.pulse, r.admission, r.signature, multiset(r.members))
  {
    var local := env.verify(r.admission, r.signature);
    if local.Some? && LocalMatches(env, config, prior, local.value) {
      SortMeaning(env, config, local.value, r.members);
      SoundIsEntries(env, config, local.value, r.members);
      if Sound(env, config, local.value, r.members) {
        StarsCounted(env, config, local.value, r.members);
        ClashMeaning(env, config, local.value, r.members);
        OwnEntryMeaning(env, config, local.value, r.members);
      }
    }
  }

  lemma {:induction false} SortCode(env: Env, config: Config, local: Member, encoded: seq<Bytes>)
    ensures var r := SortAll(env, config, local, encoded); r.Failure? ==> r.code == Identity || r.code == Decode
  {
    if encoded != [] {
      SortCode(env, config, local, encoded[..|encoded| - 1]);
    }
  }

  /** A response is refused for its size exactly when its endpoint is good and one of the limits is passed. */
  lemma CapacityExactly(env: Env, config: Config, prior: Option<Member>, r: Response)
    ensures Validate(env, config, prior, r) == Failure(Capacity) <==>
            && (r.pulse == "" || env.format(r.pulse).Some?)
            && (|| |r.members| > 8192
                || (config.role == Planet && |r.members| > 8)
                || (&& env.verify(r.admission, r.signature).Some?
                    && var local := env.verify(r.admission, r.signature).value;
                       && IsOurs(env, config, prior, local) && Entries(env, config, local, multiset(r.members))
                       && Stars(env, config, multiset(r.members)) > config.maxMembers))
    ensures Validate(env, config, prior, r).Failure? ==>
              Validate(env, config, prior, r).code in {Capacity, Identity, Decode}
  {
    var local := env.verify(r.admission, r.signature);
    if local.Some? && LocalMatches(env, config, prior, local.value) {
      SortMeaning(env, config, local.value, r.members);
      SortCode(env, config, local.value, r.members);
      SoundIsEntries(env, config, local.value, r.members);
      if Sound(env, config, local.value, r.members) {
        StarsCounted(env, config, local.value, r.members);
      }
    }
  }

  /** The order of the returned directory never decides acceptance. */
  lemma OrderDoesNotMatter(env: Env, config: Config, prior: Option<Member>, r: Response, members: seq<Bytes>)
    requires multiset(members) == multiset(r.members)
    ensures Validate(env, config, prior, r).Success? <==> Validate(env, config, prior, r.(members := members)).Success?
  {
    ValidateMeaning(env, config, prior, r);
    ValidateMeaning(env, config, prior, r.(members := members));
  }

  /**
   * An accepted response yields exactly the decoded directory: the stars and at most one control
   * service that shares nothing with any of them, and a Star finds itself among the stars.
   */
  lemma AcceptedDirectory(env: Env, config: Config, prior: Option<Member>, r: Response)
    requires Validate(env, config, prior, r).Success?
    ensures var j := Validate(env, config, prior, r).value;
            && multiset(j.members) + multiset(j.services) == multiset(Decoded(env, r.members))
            && |j.members| + |j.services| == |r.members|
            && |j.services| <= 1
            && (forall m :: m in j.members ==> m.role == Star && m.galaxy == config.galaxy)
            && (forall s, m :: s in j.services && m in j.members ==> s.role == Polaris && !Shares(m, s))
            && (config.role == Star ==> j.local in j.members)
            && env.verify(r.admission, r.signature) == Some(j.local)
            && j.hello.admission == r.admission && j.hello.signature == r.signature
  {
    var local := env.verify(r.admission, r.signature).value;
    SortMeaning(env, config, local, r.members);
    SoundDirectory(env, config, local, r.members);
    var j := Validate(env, config, prior, r).value;
    forall s, m | s in j.services && m in j.members
      ensures s.role == Polaris && !Shares(m, s)
    {
      assert j.services == [s];
    }
  }

  /** A sound directory is split into stars and at most one service, and nothing else. */
  lemma SoundDirectory(env: Env, config: Config, local: Member, encoded: seq<Bytes>)
    requires Sound(env, config, local, encoded)
    ensures var members, services := StarList(env, config, encoded), Services(env, config, encoded);
            && multiset(members) + multiset(services) == multiset(Decoded(env, encoded))
            && |members| + |services| == |encoded| && |services| <= 1
            && (forall m :: m in members ==> m.role == Star && m.galaxy == config.galaxy)
            && (forall s :: s in services ==> s.role == Polaris)
  {
    SplitIsExact(env, config, local, encoded);
    OneService(env, config, local, encoded);
    StarListMembers(env, config, encoded);
    ServicesMembers(env, config, encoded);
  }
}
