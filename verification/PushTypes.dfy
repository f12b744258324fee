/** Messages of the push fixture and the stream of events a session sends. */
module PushTypes {
  import opened Common

  datatype Domain = Registry | Catalog

  datatype Report = Report(revision: nat, sampled: nat, expired: nat, p50: nat, p95: nat, p99: nat)

  datatype Event =
    | Ready
    | Update(revision: nat, key: string, data: Bytes, domain: Domain)
    | Snapshot(piece: Bytes)
    | Drained(upTo: nat)
    | Pong(ping: nat)
    | Accepted(request: nat)
    | Rejected(request: nat)
    | Completed(report: Report)
  {
    /** Events every joined session receives; the others answer one control message. */
    predicate Broadcast?() {
      Ready? || Update? || Snapshot? || Drained?
    }
  }

  /** One control message; Unset is a message with no command. */
  datatype Control =
    | Join(accept: bool)
    | Ping(ping: nat)
    | Publish(request: nat, data: Bytes)
    | Progress(revision: nat, final: bool)
    | Unset

  type Entry = (nat, Bytes)
  type Table = map<string, Entry>

  datatype Config = Config(
    registries: nat, catalogs: nat, bytes: nat, fanout: nat, rate: nat, hot: nat, renew: bool)
  {
    /** The limits the program checks before it builds the hub. */
    predicate Checked() {
      && 1 <= registries <= 100000
      && 1 <= catalogs <= 10000
      && 64 <= bytes <= 1024
      && 1 <= fanout <= 64
      && 1 <= rate <= 200000
      && hot <= registries
      && hot <= catalogs
    }
  }

  const RING := 512
  const STAMPS := 16384
  const QUEUE := 17
  const REPLIES := 8
  const HINTS := 15
  const BUCKETS := 100001

  /** The broadcasts of a stream, or its replies, in order. */
  function Only(s: seq<Event>, broadcast: bool): seq<Event> {
    if s == [] then []
    else Only(s[..|s| - 1], broadcast) + (if Last(s).Broadcast?() == broadcast then [Last(s)] else [])
  }

  function Broadcasts(s: seq<Event>): seq<Event> {
    Only(s, true)
  }

  function Replies(s: seq<Event>): seq<Event> {
    Only(s, false)
  }

  lemma OnlyOfOne(s: seq<Event>, e: Event, broadcast: bool)
    ensures Only(s + [e], broadcast) == Only(s, broadcast) + (if e.Broadcast?() == broadcast then [e] else [])
  {
    assert (s + [e])[..|s|] == s;
  }

  lemma {:induction false} OnlyConcat(a: seq<Event>, b: seq<Event>, broadcast: bool)
    ensures Only(a + b, broadcast) == Only(a, broadcast) + Only(b, broadcast)
  {
    if b == [] {
      assert a + b == a;
    } else {
      assert (a + b)[..|a + b| - 1] == a + b[..|b| - 1];
      OnlyConcat(a, b[..|b| - 1], broadcast);
    }
  }

  lemma {:induction false} OnlyHas(s: seq<Event>, e: Event)
    requires e in s
    ensures e in Only(s, e.Broadcast?())
  {
    var front := s[..|s| - 1];
    assert s == front + [Last(s)];
    if e in front {
      OnlyHas(front, e);
    }
  }

  lemma {:induction false} BroadcastsOfReplies(s: seq<Event>)
    requires forall e <- s :: !e.Broadcast?()
    ensures Broadcasts(s) == []
  {
    if s != [] {
      BroadcastsOfReplies(s[..|s| - 1]);
    }
  }

  /** What one broadcast does to a copy of the table. */
  function Install(t: Table, e: Event): Table {
    if e.Update? then t[e.key := (e.revision, e.data)] else t
  }

  /** A table after a run of events. */
  function Replay(t: Table, s: seq<Event>): Table {
    if s == [] then t else Install(Replay(t, s[..|s| - 1]), Last(s))
  }

  lemma ReplayStep(t: Table, s: seq<Event>, e: Event)
    ensures Replay(t, s + [e]) == Install(Replay(t, s), e)
  {
    assert (s + [e])[..|s|] == s;
  }

  lemma {:induction false} ReplayConcat(t: Table, a: seq<Event>, b: seq<Event>)
    ensures Replay(t, a + b) == Replay(Replay(t, a), b)
  {
    if b == [] {
      assert a + b == a;
    } else {
      assert (a + b)[..|a + b| - 1] == a + b[..|b| - 1];
      ReplayConcat(t, a, b[..|b| - 1]);
    }
  }

  /** Replies never change a table. */
  lemma {:induction false} ReplayBroadcasts(t: Table, s: seq<Event>)
    ensures Replay(t, Broadcasts(s)) == Replay(t, s)
  {
    if s != [] {
      var front := s[..|s| - 1];
      ReplayBroadcasts(t, front);
      if Last(s).Broadcast?() {
        ReplayStep(t, Broadcasts(front), Last(s));
      } else {
        assert Broadcasts(s) == Broadcasts(front);
      }
    }
  }

  /** The number of updates in a run of events. */
  function Updates(s: seq<Event>): nat {
    if s == [] then 0 else Updates(s[..|s| - 1]) + (if Last(s).Update? then 1 else 0)
  }

  /** Updates carry the revisions 1, 2, 3, ... in order. */
  ghost predicate Numbered(s: seq<Event>) {
    forall i {:trigger s[i]} :: 0 <= i < |s| && s[i].Update? ==> s[i].revision == Updates(s[..i + 1])
  }

  lemma {:induction false} UpdatesMonotone(s: seq<Event>, i: nat, j: nat)
    requires i <= j <= |s|
    ensures Updates(s[..i]) <= Updates(s[..j])
  {
    if i < j {
      UpdatesMonotone(s, i, j - 1);
      assert s[..j][..j - 1] == s[..j - 1];
    }
  }
}
