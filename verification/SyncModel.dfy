/** Applying a source package to a remote tree: check everything, then move and write name by name. */
module SyncModel {
  import opened Common

  type Name = string
  type Tree = map<Name, Bytes>

  /** What the sender packs: the new manifest, the one it last installed, and the contents of changed files. */
  datatype Package = Package(
    files: map<Name, Bytes>, previous: map<Name, Bytes>,
    changed: seq<Name>, deleted: seq<Name>, archive: map<Name, Bytes>)

  /** The project tree and the backups of this package. */
  datatype Disk = Disk(tree: Tree, history: Tree)

  datatype Error = UnsafePath | Conflict | ArchiveMismatch | FinalMismatch

  datatype Outcome = Installed | Refused(error: Error)

  const SUFFIX := ".verdandi-sync-tmp"

  function Temporary(name: Name): Name {
    name + SUFFIX
  }

  // ---- the sender's side ----

  /** The change lists are computed from the two manifests; their order is the sender's. */
  ghost predicate Packed(p: Package) {
    && Distinct(p.changed) && Distinct(p.deleted)
    && (forall n :: n in p.changed <==> n in p.files && (n !in p.previous || p.previous[n] != p.files[n]))
    && (forall n :: n in p.deleted <==> n in p.previous && n !in p.files)
    && (forall n :: n in p.changed ==> n in p.archive)
  }

  // ---- the remote side ----

  /** The digest of a file, None when there is no such file. */
  function Digest(hash: Bytes -> Bytes, tree: Tree, name: Name): Option<Bytes> {
    if name in tree then Some(hash(tree[name])) else None
  }

  function Lookup(m: map<Name, Bytes>, name: Name): Option<Bytes> {
    if name in m then Some(m[name]) else None
  }

  /** A name is in conflict when it is neither what the sender left there nor what it wants there. */
  predicate Conflicts(hash: Bytes -> Bytes, p: Package, tree: Tree, name: Name) {
    var current := Digest(hash, tree, name);
    current != Lookup(p.previous, name) && current != Lookup(p.files, name)
  }

  /** Names the check visits. */
  function Named(p: Package): set<Name> {
    p.files.Keys + set n | n in p.deleted
  }

  /** Backing up, then writing or leaving absent, one name. */
  function Install(hash: Bytes -> Bytes, p: Package, d: Disk, name: Name): Disk
    requires name in p.files ==> name in p.archive
  {
    var backed :=
      if name in d.tree && Digest(hash, d.tree, name) != Lookup(p.files, name) then
        Disk(d.tree - {name}, d.history[name := d.tree[name]])
      else d;
    if name in p.files then
      // The content goes to a temporary name first and is then moved over the target.
      backed.(tree := backed.tree[Temporary(name) := p.archive[name]][name := p.archive[name]] - {Temporary(name)})
    else backed
  }

  /** The archive has a content for every name of the list that is to be written. */
  ghost predicate Supplied(p: Package, names: seq<Name>) {
    forall n :: n in names && n in p.files ==> n in p.archive
  }

  function InstallAll(hash: Bytes -> Bytes, p: Package, d: Disk, names: seq<Name>): Disk
    requires Supplied(p, names)
  {
    if names == [] then d
    else
      assert forall n :: n in names[..|names| - 1] ==> n in names;
      Install(hash, p, InstallAll(hash, p, d, names[..|names| - 1]), Last(names))
  }

  function Work(p: Package): seq<Name> {
    p.changed + p.deleted
  }

  /** Everything the script verifies before its first write. */
  ghost predicate Passes(hash: Bytes -> Bytes, safe: Name -> bool, p: Package, tree: Tree) {
    && (forall n :: n in Named(p) ==> safe(n) && !Conflicts(hash, p, tree, n))
    && (forall n :: n in p.changed && n in p.archive && n in p.files ==> hash(p.archive[n]) == p.files[n])
  }

  /** The remote file differs from what the sender last left there and from what it wants there. */
  ghost predicate Disputed(hash: Bytes -> Bytes, p: Package, tree: Tree, n: Name) {
    && (n in p.files || n in p.deleted)
    && (n in tree && n in p.previous ==> hash(tree[n]) != p.previous[n])
    && (n in tree && n in p.files ==> hash(tree[n]) != p.files[n])
    && (n !in tree ==> n in p.previous && n in p.files)
  }

  /** The check passes exactly when every name is safe and undisputed and every packed content is the wanted one. */
  lemma PassesMeans(hash: Bytes -> Bytes, safe: Name -> bool, p: Package, tree: Tree)
    requires Packed(p)
    ensures Passes(hash, safe, p, tree) <==>
            && (forall n :: n in p.files || n in p.deleted ==> safe(n))
            && (forall n :: !Disputed(hash, p, tree, n))
            && (forall n :: n in p.changed ==> n in p.archive && n in p.files && hash(p.archive[n]) == p.files[n])
  {
    forall n
      ensures n in Named(p) <==> n in p.files || n in p.deleted
      ensures Disputed(hash, p, tree, n) <==> n in Named(p) && Conflicts(hash, p, tree, n)
    {
    }
    if (forall n :: n in p.files || n in p.deleted ==> safe(n)) && (forall n :: !Disputed(hash, p, tree, n)) {
      forall n | n in Named(p)
        ensures safe(n) && !Conflicts(hash, p, tree, n)
      {
        assert !Disputed(hash, p, tree, n);
      }
    }
  }

  // ---- proofs ----

  lemma WorkMembers(p: Package)
    requires Packed(p)
    ensures Distinct(Work(p)) && Supplied(p, Work(p))
    ensures forall n :: n in Work(p) <==> n in p.changed || n in p.deleted
  {
    forall i, j | 0 <= i < j < |Work(p)|
      ensures Work(p)[i] != Work(p)[j]
    {
      if i < |p.changed| <= j {
        assert p.changed[i] in p.changed && p.deleted[j - |p.changed|] in p.deleted;
      }
    }
  }

  lemma SuppliedPrefix(p: Package, names: seq<Name>, k: nat)
    requires Supplied(p, names) && k <= |names|
    ensures Supplied(p, names[..k])
  {
    assert forall n :: n in names[..k] ==> n in names;
  }

  lemma InstallAllSnoc(hash: Bytes -> Bytes, p: Package, d: Disk, names: seq<Name>, name: Name)
    requires Supplied(p, names + [name]) && Supplied(p, names)
    ensures name in p.files ==> name in p.archive
    ensures InstallAll(hash, p, d, names + [name]) == Install(hash, p, InstallAll(hash, p, d, names), name)
  {
    assert name in names + [name];
    assert (names + [name])[..|names|] == names;
  }
}
