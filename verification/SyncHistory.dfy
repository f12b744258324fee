/** Displaced contents and interrupted installations: what is kept, and what a second attempt does. */
module SyncHistory {
  import opened Common
  import opened SyncModel
  import opened SyncExact

  // ---- displaced contents ----

  /** No content of the tree is in the history already; so it is for a package that starts. */
  ghost predicate Unsaved(d: Disk) {
    forall x :: x in d.tree ==> Lookup(d.history, x) != Some(d.tree[x])
  }

  /** The content of x is in the history, or the tree has one with its digest. */
  ghost predicate Survives(hash: Bytes -> Bytes, d: Disk, d': Disk, x: Name)
    requires x in d.tree
  {
    Lookup(d'.history, x) == Some(d.tree[x]) || Digest(hash, d'.tree, x) == Some(hash(d.tree[x]))
  }

  ghost predicate NothingLost(hash: Bytes -> Bytes, d: Disk, d': Disk) {
    forall x :: x in d.tree ==> Survives(hash, d, d', x)
  }

  /**
   * The file at the temporary name of changed file j is written too: before j when its content has
   * to be replaced, after j when it is already as wanted.
   */
  ghost predicate Rescued(hash: Bytes -> Bytes, p: Package, tree: Tree, j: nat)
    requires j < |p.changed|
  {
    var t := Temporary(p.changed[j]);
    exists i :: 0 <= i < |p.changed| && p.changed[i] == t && (i < j <==> Digest(hash, tree, t) != Lookup(p.files, t))
  }

  ghost predicate Harmless(hash: Bytes -> Bytes, p: Package, tree: Tree) {
    forall j {:trigger p.changed[j]} :: 0 <= j < |p.changed| && Temporary(p.changed[j]) in tree ==>
      Rescued(hash, p, tree, j)
  }

  lemma UnscratchedSurvives(hash: Bytes -> Bytes, safe: Name -> bool, p: Package, d: Disk, x: Name)
    requires Packed(p) && Passes(hash, safe, p, d.tree) && Supplied(p, Work(p))
    requires x in d.tree && !Scratched(p, Work(p), x)
    ensures Survives(hash, d, InstallAll(hash, p, d, Work(p)), x)
  {
    var work := Work(p);
    if x !in work {
      OutsideNames(hash, p, d, work, x);
    } else {
      var i :| 0 <= i < |work| && work[i] == x;
      WorkMembers(p);
      InsideNames(hash, p, d, work, i);
      NoPart(p, x, i);
      if x in p.files {
        var m := WrittenIndex(p, x);
        assert x in p.changed;
      }
    }
  }

  lemma NoPart(p: Package, x: Name, i: nat)
    requires i < |Work(p)| && !Scratched(p, Work(p), x)
    ensures !Scratched(p, Work(p)[..i], x) && !Scratched(p, Work(p)[i + 1..], x)
  {
    var work, after := Work(p), Work(p)[i + 1..];
    assert forall j :: 0 <= j < i ==> work[..i][j] == work[j];
    assert forall j :: 0 <= j < |after| ==> after[j] == work[i + 1 + j];
  }

  /** The file at a temporary name, when its name is not worked on or is dropped. */
  lemma UnwrittenIsLost(hash: Bytes -> Bytes, p: Package, d: Disk, j: nat)
    requires Packed(p) && Supplied(p, Work(p)) && Unsaved(d) && j < |p.changed|
    requires Temporary(p.changed[j]) in d.tree && Temporary(p.changed[j]) !in p.changed
    ensures !Survives(hash, d, InstallAll(hash, p, d, Work(p)), Temporary(p.changed[j]))
  {
    var work, t := Work(p), Temporary(p.changed[j]);
    WorkMembers(p);
    if t !in work {
      ScratchedRange(p, j, 0, |work|);
      assert work[0..|work|] == work;
      OutsideNames(hash, p, d, work, t);
    } else {
      var m :| 0 <= m < |p.deleted| && p.deleted[m] == t;
      var i := |p.changed| + m;
      assert work[i] == t && t in p.deleted;
      ScratchedRange(p, j, 0, i);
      assert work[0..i] == work[..i];
      InsideNames(hash, p, d, work, i);
    }
  }

  /** The file at a temporary name, when it is itself written, as number i. */
  lemma WrittenSurvival(hash: Bytes -> Bytes, safe: Name -> bool, p: Package, d: Disk, j: nat, i: nat)
    requires Packed(p) && Passes(hash, safe, p, d.tree) && Supplied(p, Work(p)) && Unsaved(d)
    requires j < |p.changed| && i < |p.changed| && p.changed[i] == Temporary(p.changed[j]) && p.changed[i] in d.tree
    ensures var t := p.changed[i];
            Survives(hash, d, InstallAll(hash, p, d, Work(p)), t) <==>
            (i < j <==> Digest(hash, d.tree, t) != Lookup(p.files, t))
  {
    var work, t := Work(p), p.changed[i];
    assert |t| > |p.changed[j]|;
    WorkMembers(p);
    ChangedIndex(p, i);
    InsideNames(hash, p, d, work, i);
    ScratchedRange(p, j, 0, i);
    ScratchedRange(p, j, i + 1, |work|);
    assert work[0..i] == work[..i] && work[i + 1..|work|] == work[i + 1..];
    assert t in p.changed;
  }

  lemma ScratchedSurvival(hash: Bytes -> Bytes, safe: Name -> bool, p: Package, d: Disk, j: nat)
    requires Packed(p) && Passes(hash, safe, p, d.tree) && Supplied(p, Work(p)) && Unsaved(d)
    requires j < |p.changed| && Temporary(p.changed[j]) in d.tree
    ensures Survives(hash, d, InstallAll(hash, p, d, Work(p)), Temporary(p.changed[j])) <==> Rescued(hash, p, d.tree, j)
  {
    var t := Temporary(p.changed[j]);
    if t in p.changed {
      var i := WrittenAt(p, t);
      WrittenSurvival(hash, safe, p, d, j, i);
      forall m | 0 <= m < |p.changed| && p.changed[m] == t
        ensures m == i
      {
        SameIndex(p, m, i);
      }
    } else {
      UnwrittenIsLost(hash, p, d, j);
    }
  }

  lemma SameIndex(p: Package, m: nat, i: nat)
    requires Packed(p) && m < |p.changed| && i < |p.changed| && p.changed[m] == p.changed[i]
    ensures m == i
  {
  }

  /**
   * After a passed check, every content of the old tree is still in the tree or in the history exactly
   * when every file at a temporary name is rescued by the package itself.
   */
  lemma HistoryKeptExactly(hash: Bytes -> Bytes, safe: Name -> bool, p: Package, d: Disk)
    requires Packed(p) && Passes(hash, safe, p, d.tree) && Supplied(p, Work(p)) && Unsaved(d)
    ensures NothingLost(hash, d, InstallAll(hash, p, d, Work(p))) <==> Harmless(hash, p, d.tree)
  {
    var d' := InstallAll(hash, p, d, Work(p));
    forall j | 0 <= j < |p.changed| && Temporary(p.changed[j]) in d.tree
      ensures Survives(hash, d, d', Temporary(p.changed[j])) <==> Rescued(hash, p, d.tree, j)
    {
      ScratchedSurvival(hash, safe, p, d, j);
    }
    if Harmless(hash, p, d.tree) {
      forall x | x in d.tree
        ensures Survives(hash, d, d', x)
      {
        if Scratched(p, Work(p), x) {
          var j := Scratcher(p, Work(p), x);
          ScratchedSurvival(hash, safe, p, d, j);
        } else {
          UnscratchedSurvives(hash, safe, p, d, x);
        }
      }
    }
  }

  /** Manifest names verified, dropped names absent, other files untouched, and nothing lost. */
  ghost predicate ExactlyInstalled(hash: Bytes -> Bytes, p: Package, d: Disk, d': Disk) {
    && Verified(hash, p, d'.tree)
    && (forall n :: n in p.deleted ==> n !in d'.tree)
    && OthersUntouched(p, d, d')
    && NothingLost(hash, d, d')
  }

  /** After a passed check, when an installation is all that it should be. */
  lemma InstallIsExact(hash: Bytes -> Bytes, safe: Name -> bool, p: Package, d: Disk)
    requires Packed(p) && Passes(hash, safe, p, d.tree) && Supplied(p, Work(p)) && Unsaved(d)
    ensures ExactlyInstalled(hash, p, d, InstallAll(hash, p, d, Work(p))) <==>
            Orderly(p) && Spared(p, d.tree) && Harmless(hash, p, d.tree)
  {
    FinalCheckExactly(hash, safe, p, d);
    OthersUntouchedExactly(hash, p, d);
    HistoryKeptExactly(hash, safe, p, d);
    forall n | n in p.deleted
      ensures n !in InstallAll(hash, p, d, Work(p)).tree
    {
      DroppedAreAbsent(hash, p, d, n);
    }
  }

  /** Only what the sender itself last installed is ever displaced: every backup has the digest of the old manifest. */
  lemma DisplacedIsPrevious(hash: Bytes -> Bytes, safe: Name -> bool, p: Package, d: Disk, k: nat, n: Name)
    requires Packed(p) && Passes(hash, safe, p, d.tree) && k <= |Work(p)| && Supplied(p, Work(p)[..k])
    requires d.history == map[] && n in InstallAll(hash, p, d, Work(p)[..k]).history
    ensures n in p.previous && hash(InstallAll(hash, p, d, Work(p)[..k]).history[n]) == p.previous[n]
  {
    if n in Work(p)[..k] {
      var i :| 0 <= i < k && Work(p)[..k][i] == n;
      WorkedName(hash, p, d, k, i);
      SavedIsPrevious(hash, safe, p, d, Work(p)[..i], Work(p)[i]);
    } else {
      OutsideNames(hash, p, d, Work(p)[..k], n);
    }
  }

  lemma SavedIsPrevious(hash: Bytes -> Bytes, safe: Name -> bool, p: Package, d: Disk, before: seq<Name>, x: Name)
    requires Packed(p) && Passes(hash, safe, p, d.tree) && x in Work(p)
    requires d.history == map[] && Saved(hash, p, d, before, x).Some?
    ensures x in p.previous && hash(Saved(hash, p, d, before, x).value) == p.previous[x]
  {
    assert x in Named(p);
    assert !Conflicts(hash, p, d.tree, x);
  }

  // ---- interrupted installations ----

  /**
   * A temporary name among the first k names is that of a file the sender knows and wants, and this
   * file has been written again before the interruption.
   */
  ghost predicate Resumable(p: Package, k: nat) {
    forall j {:trigger p.changed[j]} :: 0 <= j < |p.changed| && j < k && Troubled(p, p.changed[j]) ==>
      exists i :: j < i < k && i < |p.changed| && p.changed[i] == Temporary(p.changed[j])
  }

  /** The temporary name is in the new manifest and in the old one. */
  ghost predicate Troubled(p: Package, n: Name) {
    Temporary(n) in p.files && Temporary(n) in p.previous
  }

  /** A name that has not had its turn. */
  lemma WaitingName(hash: Bytes -> Bytes, safe: Name -> bool, p: Package, d: Disk, k: nat, n: Name)
    requires Packed(p) && Passes(hash, safe, p, d.tree) && k <= |Work(p)| && Supplied(p, Work(p)[..k])
    requires n in Named(p) && n !in Work(p)[..k]
    ensures Conflicts(hash, p, InstallAll(hash, p, d, Work(p)[..k]).tree, n) <==>
            Scratched(p, Work(p)[..k], n) && n in p.files && n in p.previous
  {
    OutsideNames(hash, p, d, Work(p)[..k], n);
    assert !Conflicts(hash, p, d.tree, n);
  }

  /** A name that has had its turn. */
  lemma FinishedName(hash: Bytes -> Bytes, safe: Name -> bool, p: Package, d: Disk, k: nat, i: nat)
    requires Packed(p) && Passes(hash, safe, p, d.tree) && i < k <= |Work(p)| && Supplied(p, Work(p)[..k])
    ensures Conflicts(hash, p, InstallAll(hash, p, d, Work(p)[..k]).tree, Work(p)[i]) <==>
            Scratched(p, Work(p)[i + 1..k], Work(p)[i]) && Work(p)[i] in p.files && Work(p)[i] in p.previous
  {
    WorkedName(hash, p, d, k, i);
    if Work(p)[i] in p.files {
      var m := WrittenIndex(p, Work(p)[i]);
      ChangedIndex(p, m);
      assert Work(p)[i] in p.changed;
    }
  }

  /** Changed file number j has not been followed, within the first k names, by the file at its temporary name. */
  ghost predicate Unfollowed(p: Package, k: nat, j: nat)
    requires j < |p.changed|
  {
    forall i :: j < i < k && i < |p.changed| ==> p.changed[i] != Temporary(p.changed[j])
  }

  lemma ResumableFinished(p: Package, k: nat, i: nat)
    requires Packed(p) && Resumable(p, k) && i < k <= |Work(p)|
    requires Work(p)[i] in p.files && Work(p)[i] in p.previous
    ensures !Scratched(p, Work(p)[i + 1..k], Work(p)[i])
  {
    WorkMembers(p);
    ScratchedMeans(p, i + 1, k, Work(p)[i]);
    forall j | i + 1 <= j < k && j < |p.changed|
      ensures Temporary(p.changed[j]) != Work(p)[i]
    {
      assert forall m :: j < m < k && m < |p.changed| ==> Work(p)[m] == p.changed[m] != Work(p)[i];
    }
  }

  lemma ResumableWaiting(p: Package, k: nat, n: Name)
    requires Packed(p) && Resumable(p, k) && k <= |Work(p)|
    requires n !in Work(p)[..k] && n in p.files && n in p.previous
    ensures !Scratched(p, Work(p)[..k], n)
  {
    ScratchedMeans(p, 0, k, n);
    assert Work(p)[0..k] == Work(p)[..k];
    forall m | 0 <= m < k && m < |p.changed|
      ensures p.changed[m] != n
    {
      assert Work(p)[..k][m] == p.changed[m];
    }
  }

  lemma ResumableAt(hash: Bytes -> Bytes, safe: Name -> bool, p: Package, d: Disk, k: nat, n: Name)
    requires Packed(p) && Passes(hash, safe, p, d.tree) && k <= |Work(p)| && Supplied(p, Work(p)[..k])
    requires Resumable(p, k) && n in Named(p)
    ensures !Conflicts(hash, p, InstallAll(hash, p, d, Work(p)[..k]).tree, n)
  {
    if n in Work(p)[..k] {
      var i :| 0 <= i < k && Work(p)[..k][i] == n;
      FinishedName(hash, safe, p, d, k, i);
      if n in p.files && n in p.previous {
        ResumableFinished(p, k, i);
      }
    } else {
      WaitingName(hash, safe, p, d, k, n);
      if n in p.files && n in p.previous {
        ResumableWaiting(p, k, n);
      }
    }
  }

  lemma UnfollowedConflicts(hash: Bytes -> Bytes, safe: Name -> bool, p: Package, d: Disk, k: nat, j: nat)
    requires Packed(p) && Passes(hash, safe, p, d.tree) && k <= |Work(p)| && Supplied(p, Work(p)[..k])
    requires j < |p.changed| && j < k && Troubled(p, p.changed[j]) && Unfollowed(p, k, j)
    ensures Conflicts(hash, p, InstallAll(hash, p, d, Work(p)[..k]).tree, Temporary(p.changed[j]))
  {
    var work, t := Work(p), Temporary(p.changed[j]);
    assert t in Named(p) && |t| > |p.changed[j]|;
    if t in work[..k] {
      var i := WrittenIndex(p, t);
      TurnIsWritten(p, k, i);
      ChangedIndex(p, i);
      FinishedName(hash, safe, p, d, k, i);
      ScratchedRange(p, j, i + 1, k);
    } else {
      WaitingName(hash, safe, p, d, k, t);
      ScratchedRange(p, j, 0, k);
      assert work[0..k] == work[..k];
    }
  }

  /** A changed name among the first k names is there by its own number. */
  lemma TurnIsWritten(p: Package, k: nat, i: nat)
    requires Packed(p) && k <= |Work(p)| && i < |p.changed| && p.changed[i] in Work(p)[..k]
    ensures i < k
  {
    WorkMembers(p);
    var m :| 0 <= m < k && Work(p)[..k][m] == p.changed[i];
    assert Work(p)[m] == Work(p)[i];
  }

  /** The tree left after k names passes the check again exactly when the package is resumable there. */
  lemma PartwayPassesExactly(hash: Bytes -> Bytes, safe: Name -> bool, p: Package, d: Disk, k: nat)
    requires Packed(p) && Passes(hash, safe, p, d.tree) && k <= |Work(p)| && Supplied(p, Work(p)[..k])
    ensures Passes(hash, safe, p, InstallAll(hash, p, d, Work(p)[..k]).tree) <==> Resumable(p, k)
  {
    var tree := InstallAll(hash, p, d, Work(p)[..k]).tree;
    if Resumable(p, k) {
      forall n | n in Named(p)
        ensures !Conflicts(hash, p, tree, n)
      {
        ResumableAt(hash, safe, p, d, k, n);
      }
    }
    if !Resumable(p, k) {
      var j :| 0 <= j < |p.changed| && j < k && Troubled(p, p.changed[j]) && Unfollowed(p, k, j);
      UnfollowedConflicts(hash, safe, p, d, k, j);
      assert Temporary(p.changed[j]) in Named(p);
    }
  }

  /** Every interruption between two names can be resumed exactly when no changed name is troubled. */
  lemma AlwaysResumable(p: Package)
    requires Packed(p)
    ensures (forall k: nat :: k <= |Work(p)| ==> Resumable(p, k)) <==> (forall n :: n in p.changed ==> !Troubled(p, n))
  {
    if forall k: nat :: k <= |Work(p)| ==> Resumable(p, k) {
      forall n | n in p.changed
        ensures !Troubled(p, n)
      {
        var j := WrittenAt(p, n);
        assert Resumable(p, j + 1);
      }
    }
    if forall n :: n in p.changed ==> !Troubled(p, n) {
      assert forall j :: 0 <= j < |p.changed| ==> p.changed[j] in p.changed;
    }
  }

  lemma RerunTree(hash: Bytes -> Bytes, p: Package, d: Disk, k: nat, x: Name)
    requires Packed(p) && k <= |Work(p)| && Supplied(p, Work(p)) && Supplied(p, Work(p)[..k])
    ensures var halted := InstallAll(hash, p, d, Work(p)[..k]);
            Lookup(InstallAll(hash, p, halted, Work(p)).tree, x) == Lookup(InstallAll(hash, p, d, Work(p)).tree, x)
  {
    var work, halted := Work(p), InstallAll(hash, p, d, Work(p)[..k]);
    WorkMembers(p);
    if x in work {
      var i :| 0 <= i < |work| && work[i] == x;
      InsideNames(hash, p, d, work, i);
      InsideNames(hash, p, halted, work, i);
    } else {
      OutsideNames(hash, p, d, work, x);
      OutsideNames(hash, p, halted, work, x);
      OutsideNames(hash, p, d, work[..k], x);
      ScratchedEarly(p, k, |work|, x);
      assert work[..|work|] == work;
    }
  }

  lemma ScratchedEarly(p: Package, k: nat, n: nat, x: Name)
    requires k <= n <= |Work(p)|
    ensures Scratched(p, Work(p)[..k], x) ==> Scratched(p, Work(p)[..n], x)
  {
    if Scratched(p, Work(p)[..k], x) {
      var early, all := Work(p)[..k], Work(p)[..n];
      var j :| 0 <= j < |early| && early[j] in p.files && Temporary(early[j]) == x;
      assert all[j] == early[j];
    }
  }

  lemma RerunHistory(hash: Bytes -> Bytes, safe: Name -> bool, p: Package, d: Disk, k: nat, i: nat)
    requires Packed(p) && Passes(hash, safe, p, d.tree)
    requires k <= |Work(p)| && Supplied(p, Work(p)) && Supplied(p, Work(p)[..k]) && i < |Work(p)|
    ensures var halted := InstallAll(hash, p, d, Work(p)[..k]);
            Saved(hash, p, halted, Work(p)[..i], Work(p)[i]) == Saved(hash, p, d, Work(p)[..i], Work(p)[i])
  {
    var work, x, halted := Work(p), Work(p)[i], InstallAll(hash, p, d, Work(p)[..k]);
    WorkMembers(p);
    if i < k {
      WorkedName(hash, p, d, k, i);
      if x in p.files {
        var m := WrittenIndex(p, x);
        assert x in p.changed;
      }
    } else {
      NotYet(p, k, i);
      OutsideNames(hash, p, d, work[..k], x);
    }
  }

  lemma NotYet(p: Package, k: nat, i: nat)
    requires Packed(p) && k <= i < |Work(p)|
    ensures Work(p)[i] !in Work(p)[..k]
    ensures Scratched(p, Work(p)[..k], Work(p)[i]) ==> Scratched(p, Work(p)[..i], Work(p)[i])
  {
    WorkMembers(p);
    var work := Work(p);
    assert forall m :: 0 <= m < k ==> work[..k][m] == work[m];
    ScratchedEarly(p, k, i, work[i]);
  }

  /**
   * Running the same work again from the disk left after any number of names gives the same tree and
   * the same history as running it once, for every package and tree that passed the check.
   */
  lemma RerunConverges(hash: Bytes -> Bytes, safe: Name -> bool, p: Package, d: Disk, k: nat)
    requires Packed(p) && Passes(hash, safe, p, d.tree)
    requires k <= |Work(p)| && Supplied(p, Work(p)) && Supplied(p, Work(p)[..k])
    ensures var halted := InstallAll(hash, p, d, Work(p)[..k]);
            InstallAll(hash, p, halted, Work(p)) == InstallAll(hash, p, d, Work(p))
  {
    var work, halted := Work(p), InstallAll(hash, p, d, Work(p)[..k]);
    var once, twice := InstallAll(hash, p, d, work), InstallAll(hash, p, halted, work);
    WorkMembers(p);
    forall x
      ensures Lookup(twice.tree, x) == Lookup(once.tree, x) && Lookup(twice.history, x) == Lookup(once.history, x)
    {
      RerunTree(hash, p, d, k, x);
      if x in work {
        var i :| 0 <= i < |work| && work[i] == x;
        InsideNames(hash, p, d, work, i);
        InsideNames(hash, p, halted, work, i);
        RerunHistory(hash, safe, p, d, k, i);
      } else {
        OutsideNames(hash, p, d, work, x);
        OutsideNames(hash, p, halted, work, x);
        OutsideNames(hash, p, d, work[..k], x);
      }
    }
    SameMaps(once.tree, twice.tree);
    SameMaps(once.history, twice.history);
  }

  lemma SameMaps(a: Tree, b: Tree)
    requires forall n :: Lookup(a, n) == Lookup(b, n)
    ensures a == b
  {
    forall n
      ensures n in a <==> n in b
      ensures n in a ==> a[n] == b[n]
    {
      assert Lookup(a, n) == Lookup(b, n);
    }
  }

  // ---- packages that go wrong ----

  /**
   * A package that passes every check before the first write, loses a file it does not work on and
   * fails its final verification: the unchanged file has the temporary name of the changed one.
   */
  lemma DisorderlyExample(a: Bytes, b: Bytes)
    requires a != b
    ensures var hash := (x: Bytes) => x;
            var other := Temporary("f");
            var p := Package(map["f" := b, other := a], map["f" := a, other := a], ["f"], [], map["f" := b]);
            var d := Disk(map["f" := a, other := a], map[]);
            && Packed(p) && Passes(hash, _ => true, p, d.tree) && Supplied(p, Work(p))
            && !Verified(hash, p, InstallAll(hash, p, d, Work(p)).tree)
            && !OthersUntouched(p, d, InstallAll(hash, p, d, Work(p)))
  {
    var hash := (x: Bytes) => x;
    var other := Temporary("f");
    var p := Package(map["f" := b, other := a], map["f" := a, other := a], ["f"], [], map["f" := b]);
    var d := Disk(map["f" := a, other := a], map[]);
    assert |other| > |"f"|;
    assert Packed(p);
    WorkMembers(p);
    FinalCheckExactly(hash, _ => true, p, d);
    OthersUntouchedExactly(hash, p, d);
    assert p.changed[0] == "f" && "f" in p.changed && Temporary(p.changed[0]) in p.files;
    assert Work(p) == ["f"];
  }

  /**
   * A file that is in neither manifest and has the temporary name of a changed one disappears, although
   * the package is reported as installed.
   */
  lemma StrangerExample(a: Bytes, b: Bytes, c: Bytes)
    requires a != b
    ensures var hash := (x: Bytes) => x;
            var other := Temporary("f");
            var p := Package(map["f" := b], map["f" := a], ["f"], [], map["f" := b]);
            var d := Disk(map["f" := a, other := c], map[]);
            && Packed(p) && Passes(hash, _ => true, p, d.tree) && Supplied(p, Work(p)) && Orderly(p)
            && other !in p.files && other !in p.previous
            && !OthersUntouched(p, d, InstallAll(hash, p, d, Work(p)))
  {
    var hash := (x: Bytes) => x;
    var other := Temporary("f");
    var p := Package(map["f" := b], map["f" := a], ["f"], [], map["f" := b]);
    var d := Disk(map["f" := a, other := c], map[]);
    assert |other| > |"f"|;
    assert Packed(p);
    WorkMembers(p);
    OthersUntouchedExactly(hash, p, d);
    assert p.changed[0] == "f" && "f" in p.changed;
    assert Work(p) == ["f"];
  }

  /** Two changed files, the second at the temporary name of the first. */
  function Pair(a: Bytes, b: Bytes): Package {
    var other := Temporary("f");
    Package(map["f" := b, other := b], map["f" := a, other := a], ["f", other], [], map["f" := b, other := b])
  }

  lemma PairIsPacked(a: Bytes, b: Bytes)
    requires a != b
    ensures Packed(Pair(a, b)) && Work(Pair(a, b)) == ["f", Temporary("f")] && |Temporary("f")| > |"f"|
    ensures Passes((x: Bytes) => x, _ => true, Pair(a, b), map["f" := a, Temporary("f") := a])
  {
    assert |Temporary("f")| > |"f"|;
    var p := Pair(a, b);
    assert p.changed[0] != p.changed[1];
    assert p.changed + [] == p.changed;
  }

  /**
   * The package is orderly and leaves other files alone, so it is reported as installed; yet the old
   * content of the second file is lost, and after the first name a second attempt is refused.
   */
  lemma LostExample(a: Bytes, b: Bytes)
    requires a != b
    ensures var hash := (x: Bytes) => x;
            var p := Pair(a, b);
            var d := Disk(map["f" := a, Temporary("f") := a], map[]);
            && Packed(p) && Passes(hash, _ => true, p, d.tree) && Supplied(p, Work(p)) && Supplied(p, Work(p)[..1])
            && Orderly(p) && Spared(p, d.tree)
            && !NothingLost(hash, d, InstallAll(hash, p, d, Work(p)))
            && !Passes(hash, _ => true, p, InstallAll(hash, p, d, Work(p)[..1]).tree)
  {
    var hash := (x: Bytes) => x;
    var p := Pair(a, b);
    var d := Disk(map["f" := a, Temporary("f") := a], map[]);
    PairIsPacked(a, b);
    WorkMembers(p);
    SuppliedPrefix(p, Work(p), 1);
    assert p.changed[0] == "f" && p.changed[1] == Temporary("f");
    assert |Temporary(p.changed[1])| > |p.changed[1]|;
    assert Orderly(p);
    HistoryKeptExactly(hash, _ => true, p, d);
    NotRescued(a, b);
    PartwayPassesExactly(hash, _ => true, p, d, 1);
    assert Troubled(p, p.changed[0]);
  }

  lemma NotRescued(a: Bytes, b: Bytes)
    requires a != b
    ensures !Rescued((x: Bytes) => x, Pair(a, b), map["f" := a, Temporary("f") := a], 0)
  {
    assert |Temporary("f")| > |"f"|;
  }
}
