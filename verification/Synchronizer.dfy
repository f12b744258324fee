/** The remote apply script: a tree of files and a history directory, changed in place. */
module Synchronizer {
  import opened Common
  import opened SyncModel
  import SyncExact
  import SyncHistory

  class Remote {
    const hash: Bytes -> Bytes
    const safe: Name -> bool
    var tree: Tree
    var history: Tree

    constructor (hash: Bytes -> Bytes, safe: Name -> bool, tree: Tree)
      ensures this.hash == hash && this.safe == safe && this.tree == tree && this.history == map[]
    {
      this.hash, this.safe, this.tree, this.history := hash, safe, tree, map[];
    }

    ghost function State(): Disk
      reads this
    {
      Disk(tree, history)
    }

    /** The first pass: every name is safe and in one of its two expected states. */
    method CheckNames(p: Package) returns (error: Option<Error>)
      ensures error.None? <==> forall n :: n in Named(p) ==> safe(n) && !Conflicts(hash, p, tree, n)
      ensures error.Some? ==> error.value == UnsafePath || error.value == Conflict
    {
      var rest := Named(p);
      while rest != {}
        invariant rest <= Named(p)
        invariant forall n :: n in Named(p) && n !in rest ==> safe(n) && !Conflicts(hash, p, tree, n)
        decreases rest
      {
        var n :| n in rest;
        if !safe(n) {
          return Some(UnsafePath);
        }
        if Conflicts(hash, p, tree, n) {
          return Some(Conflict);
        }
        rest := rest - {n};
      }
      return None;
    }

    /** The second pass: the packed contents are the ones the manifest names. */
    method CheckArchive(p: Package) returns (ok: bool)
      requires Packed(p)
      ensures ok <==> forall n :: n in p.changed && n in p.archive && n in p.files ==> hash(p.archive[n]) == p.files[n]
    {
      for i := 0 to |p.changed|
        invariant forall j :: 0 <= j < i ==> hash(p.archive[p.changed[j]]) == p.files[p.changed[j]]
      {
        assert p.changed[i] in p.changed;
        if hash(p.archive[p.changed[i]]) != p.files[p.changed[i]] {
          return false;
        }
      }
      return true;
    }

    method InstallOne(p: Package, name: Name)
      requires name in p.files ==> name in p.archive
      modifies this
      ensures State() == Install(hash, p, old(State()), name)
    {
      if name in tree && Digest(hash, tree, name) != Lookup(p.files, name) {
        history := history[name := tree[name]];
        tree := tree - {name};
      }
      if name in p.files {
        var temporary := Temporary(name);
        tree := tree[temporary := p.archive[name]];
        tree := tree[name := tree[temporary]] - {temporary};
      }
    }

    method InstallNames(p: Package, names: seq<Name>)
      requires Supplied(p, names)
      modifies this
      ensures State() == InstallAll(hash, p, old(State()), names)
    {
      for i := 0 to |names|
        invariant Supplied(p, names[..i])
        invariant State() == InstallAll(hash, p, old(State()), names[..i])
      {
        SuppliedPrefix(p, names, i + 1);
        assert names[..i + 1] == names[..i] + [names[i]];
        InstallAllSnoc(hash, p, old(State()), names[..i], names[i]);
        InstallOne(p, names[i]);
      }
      assert names[..|names|] == names;
    }

    method CheckFinal(p: Package) returns (ok: bool)
      ensures ok <==> SyncExact.Verified(hash, p, tree)
    {
      var rest := p.files.Keys;
      while rest != {}
        invariant rest <= p.files.Keys
        invariant forall n :: n in p.files && n !in rest ==> Digest(hash, tree, n) == Some(p.files[n])
        decreases rest
      {
        var n :| n in rest;
        if Digest(hash, tree, n) != Some(p.files[n]) {
          return false;
        }
        rest := rest - {n};
      }
      return true;
    }

    /** The checks that come before the first write. */
    method Check(p: Package) returns (error: Option<Error>)
      requires Packed(p)
      ensures error.None? <==> Passes(hash, safe, p, tree)
      ensures error.Some? ==> error.value != FinalMismatch
      ensures (exists n :: Disputed(hash, p, tree, n)) ==> error.Some?
    {
      PassesMeans(hash, safe, p, tree);
      error := CheckNames(p);
      if error.None? {
        var intact := CheckArchive(p);
        error := if intact then None else Some(ArchiveMismatch);
      }
    }

    /**
     * The whole script.  Before the checks have passed nothing is written.  After that the package alone
     * decides the outcome, dropped names are absent, and it can be read off the package and the old tree
     * whether other files stay as they were and whether every displaced content is kept.
     */
    method Apply(p: Package) returns (outcome: Outcome)
      requires Packed(p)
      modifies this
      ensures !Passes(hash, safe, p, old(tree)) ==>
                outcome.Refused? && outcome.error != FinalMismatch && State() == old(State())
      ensures (exists n :: Disputed(hash, p, old(tree), n)) ==> outcome.Refused? && State() == old(State())
      ensures Passes(hash, safe, p, old(tree)) ==>
                && Supplied(p, Work(p)) && State() == InstallAll(hash, p, old(State()), Work(p))
                && outcome == (if SyncExact.Orderly(p) then Installed else Refused(FinalMismatch))
                && (forall n :: n in p.deleted ==> n !in tree)
                && (SyncExact.OthersUntouched(p, old(State()), State()) <==> SyncExact.Spared(p, old(tree)))
      ensures Passes(hash, safe, p, old(tree)) && SyncHistory.Unsaved(old(State())) ==>
                (SyncHistory.NothingLost(hash, old(State()), State()) <==> SyncHistory.Harmless(hash, p, old(tree)))
      ensures Passes(hash, safe, p, old(tree)) && old(history) == map[] ==>
                forall n :: n in history ==> n in p.previous && hash(history[n]) == p.previous[n]
    {
      PassesMeans(hash, safe, p, tree);
      var error := Check(p);
      if error.Some? {
        return Refused(error.value);
      }
      ghost var before := State();
      WorkMembers(p);
      InstallNames(p, p.changed + p.deleted);
      Meaning(p, before);
      var verified := CheckFinal(p);
      outcome := if verified then Installed else Refused(FinalMismatch);
    }

    lemma Meaning(p: Package, d: Disk)
      requires Packed(p) && Passes(hash, safe, p, d.tree) && Supplied(p, Work(p))
      ensures var d' := InstallAll(hash, p, d, Work(p));
              && (SyncExact.Verified(hash, p, d'.tree) <==> SyncExact.Orderly(p))
              && (forall n :: n in p.deleted ==> n !in d'.tree)
              && (SyncExact.OthersUntouched(p, d, d') <==> SyncExact.Spared(p, d.tree))
              && (SyncHistory.Unsaved(d) ==>
                    (SyncHistory.NothingLost(hash, d, d') <==> SyncHistory.Harmless(hash, p, d.tree)))
              && (d.history == map[] ==>
                    forall n :: n in d'.history ==> n in p.previous && hash(d'.history[n]) == p.previous[n])
    {
      assert Work(p)[..|Work(p)|] == Work(p);
      if d.history == map[] {
        forall n | n in InstallAll(hash, p, d, Work(p)).history
          ensures n in p.previous && hash(InstallAll(hash, p, d, Work(p)).history[n]) == p.previous[n]
        {
          SyncHistory.DisplacedIsPrevious(hash, safe, p, d, |Work(p)|, n);
        }
      }
      SyncExact.FinalCheckExactly(hash, safe, p, d);
      SyncExact.OthersUntouchedExactly(hash, p, d);
      if SyncHistory.Unsaved(d) {
        SyncHistory.HistoryKeptExactly(hash, safe, p, d);
      }
      forall n | n in p.deleted
        ensures n !in InstallAll(hash, p, d, Work(p)).tree
      {
        SyncExact.DroppedAreAbsent(hash, p, d, n);
      }
    }
  }
}
