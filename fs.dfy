/**
 * The filesystem backend. The directory tree under the destination root is abstracted as
 * a map from namespace directory to the files it holds; each file holds a pickled box.
 */
module FsBackend {
  import opened Values
  import opened Boxes
  import opened Paths

  /** The content of one box file: a box, or bytes that fail to unpickle. */
  datatype StoredFile = Pickled(box: Box) | Corrupt

  /** The files of one namespace directory, by file name (the box id). */
  type Directory = map<string, StoredFile>

  /** The namespace directories under the destination root. */
  type Tree = map<string, Directory>

  function DirOf(t: Tree, namespace: string): Directory
  {
    if namespace in t then t[namespace] else map[]
  }

  /** The tree after the pickled `b` is written to file `b.boxId` of `namespace` (directory created if absent). */
  function Written(t: Tree, namespace: string, b: Box): (r: Tree)
    ensures r.Keys == t.Keys + {namespace}
  {
    t[namespace := DirOf(t, namespace)[b.boxId := Pickled(b)]]
  }

  /** The tree after file `boxId` of `namespace` is unlinked; directories always survive. */
  function Unlinked(t: Tree, namespace: string, boxId: string): (r: Tree)
    ensures r.Keys == t.Keys
  {
    if namespace in t then t[namespace := t[namespace] - {boxId}] else t
  }

  /** What `retrieve` returns: the unpickled box, or None (the source's `False`) for a missing or unreadable file. */
  function Load(t: Tree, namespace: string, boxId: string): (r: Option<Box>)
    ensures r.Some? <==> namespace in t && boxId in t[namespace] && t[namespace][boxId].Pickled?
    ensures r.Some? ==> t[namespace][boxId] == Pickled(r.value)
  {
    if namespace in t && boxId in t[namespace] && t[namespace][boxId].Pickled?
    then Some(t[namespace][boxId].box)
    else None
  }

  /** Reading back what was written gives the same box; every other file reads as before. */
  lemma LoadAfterWritten(t: Tree, namespace: string, b: Box, ns: string, id: string)
    ensures Load(Written(t, namespace, b), ns, id)
         == if ns == namespace && id == b.boxId then Some(b) else Load(t, ns, id)
  {
  }

  /** After an unlink the file reads as absent; every other file reads as before. */
  lemma LoadAfterUnlinked(t: Tree, namespace: string, boxId: string, ns: string, id: string)
    ensures Load(Unlinked(t, namespace, boxId), ns, id)
         == if ns == namespace && id == boxId then None else Load(t, ns, id)
  {
  }

  /** Unlinking drops exactly that name from the directory listing, and the directory stays. */
  lemma UnlinkedListing(t: Tree, namespace: string, boxId: string)
    ensures DirOf(Unlinked(t, namespace, boxId), namespace).Keys == DirOf(t, namespace).Keys - {boxId}
    ensures namespace in t ==> namespace in Unlinked(t, namespace, boxId)
  {
  }

  /** `s` lists every element of `elems` exactly once, in some order. */
  ghost predicate IsEnumeration(s: seq<string>, elems: set<string>)
  {
    && (forall i, j :: 0 <= i < j < |s| ==> s[i] != s[j])
    && (forall x :: x in s <==> x in elems)
  }

  /** `iterdir()`: the entries of a directory, in an order the filesystem chooses. */
  method IterDir(entries: set<string>) returns (names: seq<string>)
    ensures IsEnumeration(names, entries)
  {
    names := [];
    var rest := entries;
    while rest != {}
      invariant rest <= entries
      invariant forall x :: x in names <==> x in entries - rest
      invariant forall i, j :: 0 <= i < j < |names| ==> names[i] != names[j]
      decreases rest
    {
      var x :| x in rest;
      assert x !in names;
      assert forall i :: 0 <= i < |names| ==> names[i] != x;
      names := names + [x];
      rest := rest - {x};
    }
  }

  /** Every box named in `ids` can be loaded from `namespace`. */
  ghost predicate AllLoadable(t: Tree, namespace: string, ids: set<string>)
  {
    forall id :: id in ids ==> Load(t, namespace, id).Some?
  }

  /** The dump `backup` builds: each id mapped to the dictionary of its box. */
  ghost function Dump(t: Tree, namespace: string, ids: set<string>): map<string, Dict>
    requires AllLoadable(t, namespace, ids)
  {
    map id | id in ids :: ToDict(Load(t, namespace, id).value)
  }

  /** The ids a listing holds. */
  function IdsOf(ids: seq<string>): set<string>
  {
    set id | id in ids
  }

  /** Dumping one more loadable id of a listing adds its dictionary to the dump of the ids before it. */
  lemma DumpGrows(t: Tree, namespace: string, ids: seq<string>, i: nat)
    requires i < |ids| && Load(t, namespace, ids[i]).Some?
    requires AllLoadable(t, namespace, IdsOf(ids[..i]))
    ensures AllLoadable(t, namespace, IdsOf(ids[..i + 1]))
    ensures Dump(t, namespace, IdsOf(ids[..i + 1]))
         == Dump(t, namespace, IdsOf(ids[..i]))[ids[i] := ToDict(Load(t, namespace, ids[i]).value)]
  {
    assert ids[..i + 1] == ids[..i] + [ids[i]];
    assert IdsOf(ids[..i + 1]) == IdsOf(ids[..i]) + {ids[i]};
  }

  class FileSystem {
    var destinationPath: string
    var lockPath: string
    var tree: Tree

    /**
     * `FileSystem()`: reads the two configured directories (or the defaults), then
     * normalises them; `disk` is what the destination root already holds.
     */
    constructor (customDestination: Option<string>, customLock: Option<string>,
                 virtualEnv: Option<string>, disk: Tree)
      ensures destinationPath == SettingsPath(customDestination.GetOr(DefaultDestinationPath), virtualEnv)
      ensures lockPath == SettingsPath(customLock.GetOr(DefaultLockPath), virtualEnv)
      ensures tree == disk
    {
      destinationPath := customDestination.GetOr(DefaultDestinationPath);
      lockPath := customLock.GetOr(DefaultLockPath);
      tree := disk;
      new;
      ParseSettings(virtualEnv);
    }

    /** `_parse_settings`: strip one leading separator from each path and join it under the virtualenv. */
    method ParseSettings(virtualEnv: Option<string>)
      modifies this
      ensures destinationPath == SettingsPath(old(destinationPath), virtualEnv)
      ensures lockPath == SettingsPath(old(lockPath), virtualEnv)
      ensures tree == old(tree)
    {
      var base := BaseEnv(virtualEnv);
      destinationPath := StripSep(destinationPath);
      lockPath := StripSep(lockPath);
      destinationPath := Join(base, destinationPath);
      lockPath := Join(base, lockPath);
    }

    /** `_get_destination`. */
    function Destination(namespace: string): string
      reads this
    {
      Join(destinationPath, namespace)
    }

    /**
     * The lock file `_write_to_file` and `_load_from_file` take for box `boxId` of `namespace`:
     * a `.lock` file directly inside the lock directory.
     */
    function BoxLock(namespace: string, boxId: string): (lock: string)
      reads this
      ensures IsPrefix(lockPath + "/", lock)
      ensures |lock| >= |lockPath| + 6 && lock[|lock| - 5..] == ".lock"
      ensures '/' !in lock[|lockPath| + 1..|lock| - 5]
    {
      LockFileFor(lockPath, Join(Destination(namespace), boxId))
    }

    /**
     * With a destination and names free of dots (and names free of separators), two boxes
     * share a lock exactly when they are the same box.
     */
    lemma BoxLockInjective(ns1: string, id1: string, ns2: string, id2: string)
      requires destinationPath != "" && destinationPath[|destinationPath| - 1] != '/' && '.' !in destinationPath
      requires PlainName(ns1) && PlainName(id1) && PlainName(ns2) && PlainName(id2)
      ensures BoxLock(ns1, id1) == BoxLock(ns2, id2) <==> ns1 == ns2 && id1 == id2
    {
      assert BoxLock(ns1, id1) == LockFileFor(lockPath, FilePath(destinationPath, ns1, id1));
      assert BoxLock(ns2, id2) == LockFileFor(lockPath, FilePath(destinationPath, ns2, id2));
      PlainFilesHaveDistinctLocks(lockPath, destinationPath, ns1, id1, ns2, id2);
    }

    /** `create`: makes the namespace directory if needed and writes the box under its own id. */
    method Create(b: Box) returns (r: Result<string>, ghost lock: Option<string>)
      modifies this
      ensures b.namespace.PyNone? ==> r == Raise(TypeError) && tree == old(tree) && lock == None
      ensures b.namespace.PyStr? ==> r == Ok(b.boxId) && tree == Written(old(tree), b.namespace.s, b)
      ensures b.namespace.PyStr? ==> lock == Some(BoxLock(b.namespace.s, b.boxId))
      ensures destinationPath == old(destinationPath) && lockPath == old(lockPath)
    {
      match b.namespace
      case PyNone =>
        r, lock := Raise(TypeError), None;
      case PyStr(namespace) =>
        tree := tree[namespace := DirOf(tree, namespace)];
        lock := Some(BoxLock(namespace, b.boxId));
        tree := tree[namespace := tree[namespace][b.boxId := Pickled(b)]];
        r := Ok(b.boxId);
    }

    /**
     * `retrieve`: the stored box, or None (the source's `False`); the box file's lock is
     * taken only once the file is known to exist.
     */
    method Retrieve(namespace: string, boxId: string) returns (b: Option<Box>, ghost lock: Option<string>)
      ensures b == Load(tree, namespace, boxId)
      ensures lock.Some? <==> namespace in tree && boxId in tree[namespace]
      ensures lock.Some? ==> lock.value == BoxLock(namespace, boxId)
    {
      if namespace !in tree || boxId !in tree[namespace] {
        return None, None;
      }
      lock := Some(BoxLock(namespace, boxId));
      b := match tree[namespace][boxId]
        case Pickled(box) => Some(box)
        case Corrupt => None;
    }

    /** `update`: writes the box under its own id into the given namespace, which must already exist. */
    method Update(namespace: string, b: Box) returns (r: Result<string>, ghost lock: string)
      modifies this
      ensures namespace in old(tree) ==> r == Ok(b.boxId) && tree == Written(old(tree), namespace, b)
      ensures namespace !in old(tree) ==> r == Raise(FileNotFoundError) && tree == old(tree)
      ensures lock == BoxLock(namespace, b.boxId)
      ensures destinationPath == old(destinationPath) && lockPath == old(lockPath)
    {
      lock := BoxLock(namespace, b.boxId);
      if namespace !in tree {
        r := Raise(FileNotFoundError);
        return;
      }
      tree := tree[namespace := tree[namespace][b.boxId := Pickled(b)]];
      r := Ok(b.boxId);
    }

    /** `delete` (with `_delete_file`): true exactly when the file existed; the directory stays. */
    method Delete(namespace: string, boxId: string) returns (removed: bool)
      modifies this
      ensures removed == (namespace in old(tree) && boxId in old(tree)[namespace])
      ensures tree == Unlinked(old(tree), namespace, boxId)
      ensures destinationPath == old(destinationPath) && lockPath == old(lockPath)
    {
      removed := namespace in tree && boxId in tree[namespace];
      if removed {
        tree := tree[namespace := tree[namespace] - {boxId}];
      } else if namespace in tree {
        assert tree[namespace] - {boxId} == tree[namespace];
      }
    }

    /** `list` (with `_list_namespace`): the file names of the namespace, none for an unknown one. */
    method List(namespace: string) returns (ids: seq<string>)
      ensures IsEnumeration(ids, DirOf(tree, namespace).Keys)
    {
      if namespace in tree {
        ids := IterDir(tree[namespace].Keys);
      } else {
        ids := [];
      }
    }

    /** `list_namespaces`: the directories under the destination root. */
    method ListNamespaces() returns (namespaces: seq<string>)
      ensures IsEnumeration(namespaces, tree.Keys)
    {
      namespaces := IterDir(tree.Keys);
    }

    /** The dictionary comprehension of `backup`: each listed id mapped to the dictionary of its box. */
    method DumpBoxes(namespace: string, ids: seq<string>) returns (r: Result<map<string, Dict>>)
      ensures r.Ok? <==> AllLoadable(tree, namespace, set id | id in ids)
      ensures r.Ok? ==> r.value == Dump(tree, namespace, set id | id in ids)
      ensures r.Raise? ==> r.error == AttributeError
    {
      var dump: map<string, Dict> := map[];
      for i := 0 to |ids|
        invariant AllLoadable(tree, namespace, IdsOf(ids[..i]))
        invariant dump == Dump(tree, namespace, IdsOf(ids[..i]))
      {
        var b, _ := Retrieve(namespace, ids[i]);
        if b.None? {
          assert ids[i] in set id | id in ids;
          return Raise(AttributeError);
        }
        DumpGrows(tree, namespace, ids, i);
        dump := dump[ids[i] := ToDict(b.value)];
      }
      assert ids[..|ids|] == ids;
      r := Ok(dump);
    }

    /**
     * `backup`: NotFoundException for an unknown namespace; otherwise the dictionary of every
     * listed box (all of the namespace, or the one asked for), keyed by id. A box that cannot
     * be retrieved makes the dump fail, since `False` has no `to_json`.
     */
    method Backup(namespace: string, boxId: Option<string>) returns (r: Result<map<string, Dict>>)
      ensures namespace !in tree ==> r == Raise(NotFoundException)
      ensures namespace in tree ==>
        var ids := if boxId.None? then tree[namespace].Keys else {boxId.value};
        && (r.Ok? <==> AllLoadable(tree, namespace, ids))
        && (r.Ok? ==> r.value.Keys == ids && r.value == Dump(tree, namespace, ids))
        && (r.Raise? ==> r.error == AttributeError)
    {
      var namespaces := ListNamespaces();
      if namespace !in namespaces {
        return Raise(NotFoundException);
      }
      var ids: seq<string>;
      if boxId.None? {
        ids := List(namespace);
      } else {
        ids := [boxId.value];
      }
      assert (set id | id in ids) == if boxId.None? then tree[namespace].Keys else {boxId.value};
      r := DumpBoxes(namespace, ids);
    }
  }
}
