/**
 * What an installation does, exactly.  The write of a file goes through name + suffix, so a file with
 * that very name is overwritten and then moved away.  This module says, for every package and every
 * tree, what is then in the tree and in the history, and when that does harm.
 */
module SyncExact {
  import opened Common
  import opened SyncModel

  /** Some written name of the list uses x as its temporary name. */
  ghost predicate Scratched(p: Package, names: seq<Name>, x: Name) {
    exists j :: 0 <= j < |names| && names[j] in p.files && Temporary(names[j]) == x
  }

  // ---- one name ----

  lemma InstallElsewhere(hash: Bytes -> Bytes, p: Package, d: Disk, name: Name, x: Name)
    requires (name in p.files ==> name in p.archive) && x != name
    ensures Lookup(Install(hash, p, d, name).tree, x) ==
            if name in p.files && Temporary(name) == x then None else Lookup(d.tree, x)
    ensures Lookup(Install(hash, p, d, name).history, x) == Lookup(d.history, x)
  {
    assert |Temporary(name)| > |name|;
  }

  lemma InstallHere(hash: Bytes -> Bytes, p: Package, d: Disk, name: Name)
    requires name in p.files ==> name in p.archive
    ensures Lookup(Install(hash, p, d, name).tree, name) == if name in p.files then Some(p.archive[name]) else None
    ensures Lookup(Install(hash, p, d, name).history, name) ==
            if name in d.tree && Digest(hash, d.tree, name) != Lookup(p.files, name) then Some(d.tree[name])
            else Lookup(d.history, name)
  {
    assert |Temporary(name)| > |name|;
  }

  // ---- a list of names ----

  lemma ScratchedStep(p: Package, front: seq<Name>, last: Name, x: Name)
    ensures Scratched(p, front + [last], x) <==> Scratched(p, front, x) || (last in p.files && Temporary(last) == x)
  {
    var names := front + [last];
    if Scratched(p, front, x) {
      var j :| 0 <= j < |front| && front[j] in p.files && Temporary(front[j]) == x;
      assert names[j] == front[j];
    }
    if last in p.files && Temporary(last) == x {
      assert names[|front|] == last;
    }
  }

  /** A name that is not worked on is only ever removed, by being scratched; its history stays. */
  lemma {:induction false} OutsideNames(hash: Bytes -> Bytes, p: Package, d: Disk, names: seq<Name>, x: Name)
    requires Supplied(p, names) && x !in names
    ensures Lookup(InstallAll(hash, p, d, names).tree, x) == if Scratched(p, names, x) then None else Lookup(d.tree, x)
    ensures Lookup(InstallAll(hash, p, d, names).history, x) == Lookup(d.history, x)
  {
    if names != [] {
      var front, last := names[..|names| - 1], Last(names);
      assert names == front + [last];
      SuppliedPrefix(p, names, |names| - 1);
      InstallAllSnoc(hash, p, d, front, last);
      OutsideNames(hash, p, d, front, x);
      InstallElsewhere(hash, p, InstallAll(hash, p, d, front), last, x);
      ScratchedStep(p, front, last, x);
    }
  }

  /** What the history holds of a name: its content, unless it was scratched before its turn or was as wanted. */
  ghost function Saved(hash: Bytes -> Bytes, p: Package, d: Disk, before: seq<Name>, x: Name): Option<Bytes> {
    if x in d.tree && !Scratched(p, before, x) && Digest(hash, d.tree, x) != Lookup(p.files, x) then Some(d.tree[x])
    else Lookup(d.history, x)
  }

  /** What the tree holds of a name: the wanted content, unless it is scratched after its turn. */
  ghost function Left(p: Package, after: seq<Name>, x: Name): Option<Bytes> {
    if Scratched(p, after, x) then None else if x in p.files then Lookup(p.archive, x) else None
  }

  /** A name that is worked on. */
  lemma {:induction false} InsideNames(hash: Bytes -> Bytes, p: Package, d: Disk, names: seq<Name>, i: nat)
    requires Supplied(p, names) && Distinct(names) && i < |names|
    ensures Lookup(InstallAll(hash, p, d, names).tree, names[i]) == Left(p, names[i + 1..], names[i])
    ensures Lookup(InstallAll(hash, p, d, names).history, names[i]) == Saved(hash, p, d, names[..i], names[i])
  {
    var front, last := names[..|names| - 1], Last(names);
    assert names == front + [last];
    SuppliedPrefix(p, names, |names| - 1);
    InstallAllSnoc(hash, p, d, front, last);
    var d1 := InstallAll(hash, p, d, front);
    if i == |names| - 1 {
      OutsideNames(hash, p, d, front, last);
      InstallHere(hash, p, d1, last);
    } else {
      InsideNames(hash, p, d, front, i);
      assert front[i] == names[i] != last && front[..i] == names[..i];
      InstallElsewhere(hash, p, d1, last, names[i]);
      assert names[i + 1..] == front[i + 1..] + [last];
      ScratchedStep(p, front[i + 1..], last, names[i]);
    }
  }

  // ---- the whole work of a package ----

  lemma ChangedIndex(p: Package, i: nat)
    requires Packed(p) && i < |p.changed|
    ensures Work(p)[i] == p.changed[i] && p.changed[i] in p.files && p.changed[i] in p.archive
  {
    assert p.changed[i] in p.changed;
  }

  lemma WrittenIndex(p: Package, name: Name) returns (m: nat)
    requires Packed(p) && name in Work(p) && name in p.files
    ensures m < |p.changed| && p.changed[m] == name
  {
    assert name !in p.deleted;
    m :| 0 <= m < |p.changed| && p.changed[m] == name;
  }

  /** A temporary name has one owner, and is scratched when the owner has its turn and at no other time. */
  lemma ScratchedRange(p: Package, j: nat, a: nat, b: nat)
    requires Packed(p) && j < |p.changed| && a <= b <= |Work(p)|
    ensures Scratched(p, Work(p)[a..b], Temporary(p.changed[j])) <==> a <= j < b
  {
    WorkMembers(p);
    ChangedIndex(p, j);
    var part, t := Work(p)[a..b], Temporary(p.changed[j]);
    if a <= j < b {
      assert part[j - a] == p.changed[j];
    }
    if Scratched(p, part, t) {
      var m :| 0 <= m < |part| && part[m] in p.files && Temporary(part[m]) == t;
      SameTemporary(part[m], p.changed[j]);
      assert Work(p)[a + m] == Work(p)[j];
    }
  }

  /** Which names are scratched during a part of the work. */
  lemma ScratchedMeans(p: Package, a: nat, b: nat, x: Name)
    requires Packed(p) && a <= b <= |Work(p)|
    ensures Scratched(p, Work(p)[a..b], x) <==>
            exists j :: a <= j < b && j < |p.changed| && Temporary(p.changed[j]) == x
  {
    var part := Work(p)[a..b];
    if Scratched(p, part, x) {
      assert forall n :: n in part ==> n in Work(p);
      var j := Scratcher(p, part, x);
      ScratchedRange(p, j, a, b);
    }
    if j :| a <= j < b && j < |p.changed| && Temporary(p.changed[j]) == x {
      ScratchedRange(p, j, a, b);
    }
  }

  lemma SameTemporary(a: Name, b: Name)
    requires Temporary(a) == Temporary(b)
    ensures a == b
  {
    assert |a| == |b|;
    assert Temporary(a)[..|a|] == a && Temporary(b)[..|b|] == b;
  }

  lemma Scratcher(p: Package, names: seq<Name>, x: Name) returns (j: nat)
    requires Packed(p) && Scratched(p, names, x) && forall n :: n in names ==> n in Work(p)
    ensures j < |p.changed| && Temporary(p.changed[j]) == x
  {
    var m :| 0 <= m < |names| && names[m] in p.files && Temporary(names[m]) == x;
    j := WrittenIndex(p, names[m]);
  }

  /** The tree and the history after the first k names, at a name of the work. */
  lemma WorkedName(hash: Bytes -> Bytes, p: Package, d: Disk, k: nat, i: nat)
    requires Packed(p) && i < k <= |Work(p)| && Supplied(p, Work(p)[..k])
    ensures var x, d' := Work(p)[i], InstallAll(hash, p, d, Work(p)[..k]);
            && Lookup(d'.tree, x) == Left(p, Work(p)[i + 1..k], x)
            && Lookup(d'.history, x) == Saved(hash, p, d, Work(p)[..i], x)
  {
    WorkMembers(p);
    var names := Work(p)[..k];
    assert Distinct(names);
    InsideNames(hash, p, d, names, i);
    assert names[i + 1..] == Work(p)[i + 1..k] && names[..i] == Work(p)[..i] && names[i] == Work(p)[i];
  }

  // ---- files outside the package ----

  /** No file outside the work has the temporary name of a changed file. */
  ghost predicate Spared(p: Package, tree: Tree) {
    forall n :: n in p.changed ==> Temporary(n) in Work(p) || Temporary(n) !in tree
  }

  ghost predicate OthersUntouched(p: Package, d: Disk, d': Disk) {
    forall x :: x !in Work(p) ==> Lookup(d'.tree, x) == Lookup(d.tree, x)
  }

  /** Files that are not worked on stay as they were exactly when they are spared. */
  lemma OthersUntouchedExactly(hash: Bytes -> Bytes, p: Package, d: Disk)
    requires Packed(p) && Supplied(p, Work(p))
    ensures OthersUntouched(p, d, InstallAll(hash, p, d, Work(p))) <==> Spared(p, d.tree)
  {
    var work, d' := Work(p), InstallAll(hash, p, d, Work(p));
    forall x | x !in work
      ensures Lookup(d'.tree, x) == if Scratched(p, work, x) then None else Lookup(d.tree, x)
      ensures Scratched(p, work, x) ==> exists n :: n in p.changed && Temporary(n) == x
    {
      OutsideNames(hash, p, d, work, x);
      if Scratched(p, work, x) {
        var j := Scratcher(p, work, x);
        assert p.changed[j] in p.changed;
      }
    }
    forall n | n in p.changed
      ensures Scratched(p, work, Temporary(n))
    {
      var j :| 0 <= j < |p.changed| && p.changed[j] == n;
      ScratchedRange(p, j, 0, |work|);
      assert work[0..|work|] == work;
    }
  }

  // ---- the final check ----

  /**
   * The package alone decides whether its final verification holds: a temporary name may be a
   * manifest name only if that file is itself written later.
   */
  ghost predicate Orderly(p: Package) {
    forall j {:trigger p.changed[j]} :: 0 <= j < |p.changed| && Temporary(p.changed[j]) in p.files ==>
      exists i :: j < i < |p.changed| && p.changed[i] == Temporary(p.changed[j])
  }

  ghost predicate Verified(hash: Bytes -> Bytes, p: Package, tree: Tree) {
    forall n :: n in p.files ==> Digest(hash, tree, n) == Some(p.files[n])
  }

  lemma UnchangedIsThere(hash: Bytes -> Bytes, safe: Name -> bool, p: Package, tree: Tree, n: Name)
    requires Packed(p) && Passes(hash, safe, p, tree) && n in p.files && n !in p.changed
    ensures Digest(hash, tree, n) == Some(p.files[n]) && n !in Work(p)
  {
    assert n in Named(p) && n !in p.deleted;
  }

  /** A name of the manifest, after the whole work. */
  lemma FinalName(hash: Bytes -> Bytes, safe: Name -> bool, p: Package, d: Disk, n: Name)
    requires Packed(p) && Passes(hash, safe, p, d.tree) && Supplied(p, Work(p)) && n in p.files
    ensures n !in p.changed ==>
              (Digest(hash, InstallAll(hash, p, d, Work(p)).tree, n) == Some(p.files[n]) <==> !Scratched(p, Work(p), n))
    ensures forall i :: 0 <= i < |p.changed| && p.changed[i] == n ==>
              (Digest(hash, InstallAll(hash, p, d, Work(p)).tree, n) == Some(p.files[n]) <==>
               !Scratched(p, Work(p)[i + 1..], n))
  {
    var work := Work(p);
    if n !in p.changed {
      UnchangedIsThere(hash, safe, p, d.tree, n);
      OutsideNames(hash, p, d, work, n);
    } else {
      forall i | 0 <= i < |p.changed| && p.changed[i] == n
        ensures Digest(hash, InstallAll(hash, p, d, work).tree, n) == Some(p.files[n]) <==>
                !Scratched(p, work[i + 1..], n)
      {
        ChangedIndex(p, i);
        WorkMembers(p);
        InsideNames(hash, p, d, work, i);
      }
    }
  }

  ghost function WrittenAt(p: Package, n: Name): (i: nat)
    requires n in p.changed
    ensures i < |p.changed| && p.changed[i] == n
  {
    var i :| 0 <= i < |p.changed| && p.changed[i] == n;
    i
  }

  /** Changed file number j is written after the file at its temporary name, or that file is not written at all. */
  ghost predicate Early(p: Package, j: nat)
    requires j < |p.changed|
  {
    forall i :: j < i < |p.changed| ==> p.changed[i] != Temporary(p.changed[j])
  }

  lemma UnwrittenFails(hash: Bytes -> Bytes, safe: Name -> bool, p: Package, d: Disk, j: nat)
    requires Packed(p) && Passes(hash, safe, p, d.tree) && Supplied(p, Work(p))
    requires j < |p.changed| && Temporary(p.changed[j]) in p.files && Temporary(p.changed[j]) !in p.changed
    ensures var t := Temporary(p.changed[j]);
            Digest(hash, InstallAll(hash, p, d, Work(p)).tree, t) != Some(p.files[t])
  {
    FinalName(hash, safe, p, d, Temporary(p.changed[j]));
    ScratchedRange(p, j, 0, |Work(p)|);
    assert Work(p)[0..|Work(p)|] == Work(p);
  }

  lemma EarlierIsScratched(p: Package, j: nat, i: nat)
    requires Packed(p) && i < j < |p.changed| && p.changed[i] == Temporary(p.changed[j])
    ensures Scratched(p, Work(p)[i + 1..], Work(p)[i])
  {
    ScratchedRange(p, j, i + 1, |Work(p)|);
    assert Work(p)[i + 1..|Work(p)|] == Work(p)[i + 1..] && Work(p)[i] == p.changed[i];
  }

  lemma ScratchedIsGone(hash: Bytes -> Bytes, p: Package, d: Disk, i: nat)
    requires Packed(p) && Supplied(p, Work(p)) && i < |Work(p)| && Scratched(p, Work(p)[i + 1..], Work(p)[i])
    ensures Digest(hash, InstallAll(hash, p, d, Work(p)).tree, Work(p)[i]) == None
  {
    WorkMembers(p);
    InsideNames(hash, p, d, Work(p), i);
  }

  lemma DisorderlyFails(hash: Bytes -> Bytes, safe: Name -> bool, p: Package, d: Disk, j: nat)
    requires Packed(p) && Passes(hash, safe, p, d.tree) && Supplied(p, Work(p))
    requires j < |p.changed| && Temporary(p.changed[j]) in p.files && Early(p, j)
    ensures var t := Temporary(p.changed[j]);
            Digest(hash, InstallAll(hash, p, d, Work(p)).tree, t) != Some(p.files[t])
  {
    var t := Temporary(p.changed[j]);
    if i :| 0 <= i < |p.changed| && p.changed[i] == t {
      assert |t| > |p.changed[j]|;
      EarlierIsScratched(p, j, i);
      ScratchedIsGone(hash, p, d, i);
    } else {
      UnwrittenFails(hash, safe, p, d, j);
    }
  }

  /** In an orderly package a manifest name is never scratched after its turn. */
  lemma OrderlyIsNotScratched(p: Package, n: Name, a: nat)
    requires Packed(p) && Orderly(p) && n in p.files && a <= |Work(p)|
    requires n in p.changed ==> a == WrittenAt(p, n) + 1
    ensures !Scratched(p, Work(p)[a..], n)
  {
    var work := Work(p);
    assert work[a..|work|] == work[a..];
    ScratchedMeans(p, a, |work|, n);
    forall j | a <= j < |p.changed|
      ensures Temporary(p.changed[j]) != n
    {
      LaterIsOther(p, n, j);
    }
  }

  lemma LaterIsOther(p: Package, n: Name, j: nat)
    requires Packed(p) && Orderly(p) && n in p.files && j < |p.changed|
    requires n in p.changed ==> WrittenAt(p, n) < j
    ensures Temporary(p.changed[j]) != n
  {
    if n in p.changed {
      assert forall i :: j < i < |p.changed| ==> p.changed[i] != p.changed[WrittenAt(p, n)];
    }
  }

  lemma OrderlyVerifies(hash: Bytes -> Bytes, safe: Name -> bool, p: Package, d: Disk, n: Name)
    requires Packed(p) && Passes(hash, safe, p, d.tree) && Supplied(p, Work(p)) && Orderly(p) && n in p.files
    ensures Digest(hash, InstallAll(hash, p, d, Work(p)).tree, n) == Some(p.files[n])
  {
    FinalName(hash, safe, p, d, n);
    if n in p.changed {
      OrderlyIsNotScratched(p, n, WrittenAt(p, n) + 1);
    } else {
      OrderlyIsNotScratched(p, n, 0);
      assert Work(p)[0..] == Work(p);
    }
  }

  /** After a passed check, the final verification succeeds exactly for orderly packages. */
  lemma FinalCheckExactly(hash: Bytes -> Bytes, safe: Name -> bool, p: Package, d: Disk)
    requires Packed(p) && Passes(hash, safe, p, d.tree) && Supplied(p, Work(p))
    ensures Verified(hash, p, InstallAll(hash, p, d, Work(p)).tree) <==> Orderly(p)
  {
    if Orderly(p) {
      forall n | n in p.files
        ensures Digest(hash, InstallAll(hash, p, d, Work(p)).tree, n) == Some(p.files[n])
      {
        OrderlyVerifies(hash, safe, p, d, n);
      }
    } else {
      var j :| 0 <= j < |p.changed| && Temporary(p.changed[j]) in p.files && Early(p, j);
      DisorderlyFails(hash, safe, p, d, j);
    }
  }

  /** Dropped names are absent, whatever the temporary names. */
  lemma DroppedAreAbsent(hash: Bytes -> Bytes, p: Package, d: Disk, n: Name)
    requires Packed(p) && Supplied(p, Work(p)) && n in p.deleted
    ensures n !in InstallAll(hash, p, d, Work(p)).tree
  {
    WorkMembers(p);
    var m :| 0 <= m < |p.deleted| && p.deleted[m] == n;
    assert Work(p)[|p.changed| + m] == n;
    InsideNames(hash, p, d, Work(p), |p.changed| + m);
  }
}
