/**
 * The NApp itself: the metadata cache kept beside the store, and the event handlers that
 * read an event's content, call the backend, update the cache and run the callback.
 */
module Napp {
  import opened Values
  import opened Boxes
  import opened Cache
  import opened FsBackend

  /** What the callback receives as its `data` argument. */
  datatype Reply =
    | ReplyNone
    | ReplyBool(b: bool)
    | ReplyBox(box: Box)
    | ReplyIds(ids: seq<string>)

  /** What sits under the `callback` key of an event's content. */
  datatype Callback =
    | Missing
    | NotCallable
    | Handler(raises: Option<Exc>)

  /** One call of the callback, with its `data` and `error` arguments. */
  datatype Delivery = Delivery(result: Reply, error: bool)

  /** The calls an event handler made to the callback, and the exception it let escape. */
  datatype Completion = Completion(delivered: seq<Delivery>, escaped: Option<Exc>)

  /**
   * `_execute_callback`: a missing callback (KeyError) or a non-callable one (TypeError) is
   * logged and ignored; a KeyError or TypeError raised by the callback itself is swallowed
   * too; any other exception it raises escapes the handler.
   */
  function ExecuteCallback(cb: Callback, result: Reply, error: bool): (c: Completion)
    ensures |c.delivered| <= 1
    ensures |c.delivered| == 1 <==> cb.Handler?
    ensures c.delivered != [] ==> c.delivered[0] == Delivery(result, error)
    ensures c.escaped.Some? <==> cb.Handler? && cb.raises.Some? && cb.raises.value != KeyError && cb.raises.value != TypeError
    ensures c.escaped.Some? ==> c.escaped == cb.raises
  {
    match cb
    case Missing => Completion([], None)
    case NotCallable => Completion([], None)
    case Handler(raises) =>
      var escaped := if raises == Some(KeyError) || raises == Some(TypeError) then None else raises;
      Completion([Delivery(result, error)], escaped)
  }

  /** The keys of an event's content that the handlers read; `None` is an absent key. */
  datatype EventContent = EventContent(
    namespace: Option<string>,
    boxId: Option<string>,
    data: Option<Value>,
    verb: Option<string>,
    callback: Callback)

  /** What `retrieve` hands on: the box, or `False`. */
  function Found(b: Option<Box>): (r: Reply)
    ensures b.Some? <==> r.ReplyBox?
    ensures b.Some? ==> r == ReplyBox(b.value)
    ensures b.None? ==> r == ReplyBool(false)
  {
    match b
    case Some(box) => ReplyBox(box)
    case None => ReplyBool(false)
  }

  /** The records of the boxes `ids` of `namespace`, in listing order. */
  function MetadataOf(t: Tree, namespace: string, ids: seq<string>): (r: seq<Record>)
    requires forall id :: id in ids ==> Load(t, namespace, id).Some?
    ensures |r| == |ids|
  {
    if ids == [] then []
    else MetadataOf(t, namespace, ids[..|ids| - 1]) + [MetadataFromBox(Load(t, namespace, ids[|ids| - 1]).value)]
  }

  /** One more listed box adds its record at the end. */
  lemma MetadataOfStep(t: Tree, namespace: string, ids: seq<string>, j: int)
    requires 0 <= j < |ids| && Load(t, namespace, ids[j]).Some?
    requires forall id :: id in ids[..j] ==> Load(t, namespace, id).Some?
    ensures forall id :: id in ids[..j + 1] ==> Load(t, namespace, id).Some?
    ensures MetadataOf(t, namespace, ids[..j + 1])
         == MetadataOf(t, namespace, ids[..j]) + [MetadataFromBox(Load(t, namespace, ids[j]).value)]
  {
    assert ids[..j + 1] == ids[..j] + [ids[j]];
    assert ids[..j + 1][..j] == ids[..j];
  }

  /** The record at each position is the metadata of the box listed at that position. */
  lemma {:induction false} MetadataOfAt(t: Tree, namespace: string, ids: seq<string>, k: int)
    requires forall id :: id in ids ==> Load(t, namespace, id).Some?
    requires 0 <= k < |ids|
    ensures MetadataOf(t, namespace, ids)[k] == MetadataFromBox(Load(t, namespace, ids[k]).value)
  {
    if k < |ids| - 1 {
      MetadataOfAt(t, namespace, ids[..|ids| - 1], k);
    }
  }

  /** `after` is `before` followed by one record per box of `namespace`, in some listing order. */
  ghost predicate RebuiltFrom(before: seq<Record>, after: seq<Record>, t: Tree, namespace: string)
  {
    exists ids :: IsEnumeration(ids, DirOf(t, namespace).Keys)
      && (forall id :: id in ids ==> Load(t, namespace, id).Some?)
      && after == before + MetadataOf(t, namespace, ids)
  }

  /** The directory of `namespace` holds a file that does not unpickle. */
  ghost predicate HasCorruptIn(t: Tree, namespace: string)
  {
    namespace in t && exists id :: id in t[namespace] && t[namespace][id].Corrupt?
  }

  /** The cache key of a namespace directory of the tree. */
  predicate IsNamespaceKey(k: OptStr, t: Tree)
  {
    k.PyStr? && k.s in t
  }

  /** `cache.get(key, [])`. */
  function Lookup(cache: map<OptStr, seq<Record>>, key: OptStr): seq<Record>
  {
    if key in cache then cache[key] else []
  }

  /**
   * What any run of `create_cache` does to the cache, finished or stopped: only the keys of
   * namespace directories are added or changed, and a list only grows at its end.
   */
  ghost predicate Grown(before: map<OptStr, seq<Record>>, after: map<OptStr, seq<Record>>, t: Tree)
  {
    && (forall k :: k in after ==> k in before || IsNamespaceKey(k, t))
    && (forall k :: k in before ==> k in after && before[k] <= after[k])
    && (forall k :: k in before && !IsNamespaceKey(k, t) ==> after[k] == before[k])
  }

  /**
   * The cache once `create_cache` has gone through the namespaces in `done`: each of them
   * got one record per box appended, none holds a bad file, and no other key changed.
   */
  ghost predicate RebuiltNamespaces(before: map<OptStr, seq<Record>>, after: map<OptStr, seq<Record>>,
                                    t: Tree, done: set<string>)
  {
    && done <= t.Keys
    && (forall k :: k in after <==> k in before || (k.PyStr? && k.s in done))
    && (forall k :: k in before ==> before[k] <= after[k])
    && (forall k :: k in before && !(k.PyStr? && k.s in done) ==> after[k] == before[k])
    && (forall ns :: ns in done ==>
          RebuiltFrom(Lookup(before, PyStr(ns)), after[PyStr(ns)], t, ns) && !HasCorruptIn(t, ns))
  }

  /** Between `before` and `after` only the list under `key` changed (created if absent), and only by growing at its end. */
  ghost predicate GrewOnlyAt(before: map<OptStr, seq<Record>>, after: map<OptStr, seq<Record>>, key: OptStr)
  {
    && after.Keys == before.Keys + {key}
    && (forall k :: k in before && k != key ==> after[k] == before[k])
    && Lookup(before, key) <= after[key]
  }

  /** Going through one more namespace extends the progress of the rebuild. */
  lemma RebuiltStep(before: map<OptStr, seq<Record>>, mid: map<OptStr, seq<Record>>, after: map<OptStr, seq<Record>>,
                    t: Tree, done: set<string>, ns: string)
    requires RebuiltNamespaces(before, mid, t, done) && ns in t && ns !in done
    requires GrewOnlyAt(mid, after, PyStr(ns))
    requires RebuiltFrom(Lookup(mid, PyStr(ns)), after[PyStr(ns)], t, ns) && !HasCorruptIn(t, ns)
    ensures RebuiltNamespaces(before, after, t, done + {ns})
  {
    var key := PyStr(ns);
    assert Lookup(mid, key) == Lookup(before, key);
    forall k | k in before
      ensures before[k] <= after[k]
    {
      if k != key { assert after[k] == mid[k]; }
    }
    forall n | n in done + {ns}
      ensures RebuiltFrom(Lookup(before, PyStr(n)), after[PyStr(n)], t, n) && !HasCorruptIn(t, n)
    {
      if n != ns { assert after[PyStr(n)] == mid[PyStr(n)]; }
    }
  }

  lemma RebuiltIsGrown(before: map<OptStr, seq<Record>>, after: map<OptStr, seq<Record>>, t: Tree, done: set<string>)
    requires RebuiltNamespaces(before, after, t, done)
    ensures Grown(before, after, t)
  {
  }

  /** A rebuild stopped inside one namespace still only grew that namespace's list. */
  lemma GrownStep(before: map<OptStr, seq<Record>>, mid: map<OptStr, seq<Record>>, after: map<OptStr, seq<Record>>,
                  t: Tree, ns: string)
    requires Grown(before, mid, t) && ns in t
    requires GrewOnlyAt(mid, after, PyStr(ns))
    ensures Grown(before, after, t)
  {
  }

  /** A rebuild stopped inside namespace `ns` has still only grown the cache. */
  lemma StoppedRebuildGrown(before: map<OptStr, seq<Record>>, mid: map<OptStr, seq<Record>>, after: map<OptStr, seq<Record>>,
                            t: Tree, done: set<string>, ns: string)
    requires RebuiltNamespaces(before, mid, t, done) && ns in t
    requires GrewOnlyAt(mid, after, PyStr(ns))
    ensures Grown(before, after, t)
  {
    RebuiltIsGrown(before, mid, t, done);
    GrownStep(before, mid, after, t, ns);
  }

  /** A rebuild that went through every namespace found no bad file anywhere. */
  lemma FinishedRebuild(before: map<OptStr, seq<Record>>, after: map<OptStr, seq<Record>>, t: Tree)
    requires RebuiltNamespaces(before, after, t, t.Keys)
    ensures Grown(before, after, t)
    ensures !exists ns :: HasCorruptIn(t, ns)
  {
    RebuiltIsGrown(before, after, t, t.Keys);
  }

  /** Walking a listing: the next element is new, and once all are seen, the whole set is. */
  lemma EnumerationStep(s: seq<string>, elems: set<string>, i: int, seen: set<string>)
    requires IsEnumeration(s, elems) && 0 <= i <= |s|
    requires forall x :: x in seen <==> x in s[..i]
    ensures i < |s| ==> s[i] !in seen && forall x :: x in seen + {s[i]} <==> x in s[..i + 1]
    ensures i == |s| ==> seen == elems
  {
    if i < |s| {
      assert s[..i + 1] == s[..i] + [s[i]];
    } else {
      assert s[..i] == s;
    }
  }

  /** A listing names every element once, so it is as long as the set it lists. */
  lemma {:induction false} EnumerationLength(s: seq<string>, elems: set<string>)
    requires IsEnumeration(s, elems)
    ensures |s| == |elems|
  {
    if s != [] {
      var init, last := s[..|s| - 1], s[|s| - 1];
      assert s == init + [last];
      assert last !in init;
      assert IsEnumeration(init, elems - {last});
      EnumerationLength(init, elems - {last});
    } else {
      assert forall x :: x !in elems;
    }
  }

  /** A rebuild appends exactly one record per file of the namespace, after the records already there. */
  lemma RebuiltLength(before: seq<Record>, after: seq<Record>, t: Tree, namespace: string)
    requires RebuiltFrom(before, after, t, namespace)
    ensures before <= after
    ensures |after| == |before| + |DirOf(t, namespace)|
  {
    var ids :| IsEnumeration(ids, DirOf(t, namespace).Keys)
      && (forall id :: id in ids ==> Load(t, namespace, id).Some?)
      && after == before + MetadataOf(t, namespace, ids);
    EnumerationLength(ids, DirOf(t, namespace).Keys);
  }

  /** The records of a listing, position by position. */
  function Image<T, U>(f: T -> U, s: seq<T>): (r: seq<U>)
    ensures |r| == |s| && forall i :: 0 <= i < |s| ==> r[i] == f(s[i])
  {
    seq(|s|, i requires 0 <= i < |s| => f(s[i]))
  }

  /** Removing one occurrence of `x` from both sides keeps two multisets equal. */
  lemma CancelOne<T>(s: seq<T>, x: T, before: seq<T>, after: seq<T>)
    requires multiset(s + [x]) == multiset(before + [x] + after)
    ensures multiset(s) == multiset(before + after)
  {
    assert multiset(s + [x]) == multiset(s) + multiset{x};
    assert multiset(before + [x] + after) == multiset(before + after) + multiset{x};
    forall y
      ensures multiset(s)[y] == multiset(before + after)[y]
    {
      assert multiset(s + [x])[y] == multiset(before + [x] + after)[y];
    }
  }

  /** Sequences holding the same elements, in any order, have images holding the same elements. */
  lemma {:induction false} ImagePermutation<T, U>(f: T -> U, s1: seq<T>, s2: seq<T>)
    requires multiset(s1) == multiset(s2)
    ensures multiset(Image(f, s1)) == multiset(Image(f, s2))
    decreases |s1|
  {
    if s1 == [] {
      assert |s2| == |multiset(s2)| == 0;
    } else {
      var last := |s1| - 1;
      assert s1[last] in multiset(s2);
      var j :| 0 <= j < |s2| && s2[j] == s1[last];
      var init, rest := s1[..last] + s1[last + 1..], s2[..j] + s2[j + 1..];
      assert s1[..last] + [s1[last]] + s1[last + 1..] == s1;
      assert s2[..j] + [s2[j]] + s2[j + 1..] == s2;
      CancelOne(s1[..last], s1[last], s2[..j], s2[j + 1..]);
      assert s1[last + 1..] == [];
      ImagePermutation(f, init, rest);
      ImageRemoveAt(f, s1, last);
      ImageRemoveAt(f, s2, j);
    }
  }

  /** Dropping position `k` from a sequence drops `f` of it from the image's multiset. */
  lemma ImageRemoveAt<T, U>(f: T -> U, s: seq<T>, k: nat)
    requires k < |s|
    ensures multiset(Image(f, s)) == multiset(Image(f, s[..k] + s[k + 1..])) + multiset{f(s[k])}
  {
    var before, after := s[..k], s[k + 1..];
    var img := Image(f, s);
    assert img == img[..k] + [img[k]] + img[k + 1..];
    assert img[..k] == Image(f, before);
    assert img[k + 1..] == Image(f, after);
    ImageConcat(f, before, after);
  }

  lemma ImageConcat<T, U>(f: T -> U, a: seq<T>, b: seq<T>)
    ensures Image(f, a + b) == Image(f, a) + Image(f, b)
  {
  }

  /** The record of one listed id (the empty record for a box that does not load). */
  function RecordOf(t: Tree, namespace: string, id: string): Record
  {
    match Load(t, namespace, id)
    case Some(b) => MetadataFromBox(b)
    case None => map[]
  }

  /** Every id of the listing names a box that loads. */
  ghost predicate Loadable(t: Tree, namespace: string, ids: seq<string>)
  {
    forall id :: id in ids ==> Load(t, namespace, id).Some?
  }

  /** The records of a loadable listing are the image of the listing under `RecordOf`. */
  lemma MetadataOfIsImage(t: Tree, namespace: string, ids: seq<string>)
    requires Loadable(t, namespace, ids)
    ensures MetadataOf(t, namespace, ids) == Image(id => RecordOf(t, namespace, id), ids)
  {
    forall k | 0 <= k < |ids|
      ensures MetadataOf(t, namespace, ids)[k] == RecordOf(t, namespace, ids[k])
    {
      MetadataOfAt(t, namespace, ids, k);
    }
  }

  /** Listings holding the same ids, in any order, give the same records, in some order. */
  lemma MetadataOfPermutation(t: Tree, namespace: string, s1: seq<string>, s2: seq<string>)
    requires Loadable(t, namespace, s1) && multiset(s1) == multiset(s2)
    ensures Loadable(t, namespace, s2)
    ensures multiset(MetadataOf(t, namespace, s1)) == multiset(MetadataOf(t, namespace, s2))
  {
    assert forall id :: id in s2 ==> id in multiset(s1);
    MetadataOfIsImage(t, namespace, s1);
    MetadataOfIsImage(t, namespace, s2);
    ImagePermutation(id => RecordOf(t, namespace, id), s1, s2);
  }

  /** A listing names each entry once, so its multiset is the set of its entries. */
  lemma {:induction false} EnumerationMultiset(s: seq<string>, elems: set<string>)
    requires IsEnumeration(s, elems)
    ensures forall x :: multiset(s)[x] == if x in elems then 1 else 0
  {
    if s != [] {
      var init, last := s[..|s| - 1], s[|s| - 1];
      assert s == init + [last];
      assert last !in init;
      assert IsEnumeration(init, elems - {last});
      EnumerationMultiset(init, elems - {last});
    }
  }

  /**
   * `create_cache` never clears what is there: run after `setup` it leaves every namespace
   * with two records per box, the second run's records being the first run's over again.
   */
  lemma RebuildTwiceDuplicates(first: seq<Record>, second: seq<Record>, t: Tree, namespace: string)
    requires RebuiltFrom([], first, t, namespace) && RebuiltFrom(first, second, t, namespace)
    ensures |second| == 2 * |DirOf(t, namespace)|
    ensures second[..|first|] == first
    ensures multiset(second[|first|..]) == multiset(first)
  {
    RebuiltLength([], first, t, namespace);
    RebuiltLength(first, second, t, namespace);
    RebuiltSameRecords([], first, first, second, t, namespace);
    assert first[0..] == first;
  }

  /** Two rebuilds of one namespace append the same records, each in its own listing order. */
  lemma RebuiltSameRecords(before1: seq<Record>, after1: seq<Record>, before2: seq<Record>, after2: seq<Record>,
                           t: Tree, namespace: string)
    requires RebuiltFrom(before1, after1, t, namespace) && RebuiltFrom(before2, after2, t, namespace)
    ensures |before1| <= |after1| && |before2| <= |after2|
    ensures multiset(after1[|before1|..]) == multiset(after2[|before2|..])
  {
    var ids1 :| IsEnumeration(ids1, DirOf(t, namespace).Keys)
      && (forall id :: id in ids1 ==> Load(t, namespace, id).Some?)
      && after1 == before1 + MetadataOf(t, namespace, ids1);
    var ids2 :| IsEnumeration(ids2, DirOf(t, namespace).Keys)
      && (forall id :: id in ids2 ==> Load(t, namespace, id).Some?)
      && after2 == before2 + MetadataOf(t, namespace, ids2);
    EnumerationsGiveSameRecords(t, namespace, ids1, ids2, DirOf(t, namespace).Keys);
    assert after1[|before1|..] == MetadataOf(t, namespace, ids1);
    assert after2[|before2|..] == MetadataOf(t, namespace, ids2);
  }

  /** Two listings of one directory give the same records, each in its own order. */
  lemma EnumerationsGiveSameRecords(t: Tree, namespace: string, ids1: seq<string>, ids2: seq<string>, elems: set<string>)
    requires IsEnumeration(ids1, elems) && IsEnumeration(ids2, elems) && Loadable(t, namespace, ids1)
    ensures Loadable(t, namespace, ids2)
    ensures multiset(MetadataOf(t, namespace, ids1)) == multiset(MetadataOf(t, namespace, ids2))
  {
    EnumerationMultiset(ids1, elems);
    EnumerationMultiset(ids2, elems);
    assert multiset(ids1) == multiset(ids2);
    MetadataOfPermutation(t, namespace, ids1, ids2);
  }

  class Main {
    /** `metadata_cache`: namespace (a `box.namespace`, possibly None) to its list of metadata records. */
    var metadataCache: map<OptStr, seq<Record>>

    /** The class attribute `metadata_cache = {}`. */
    constructor ()
      ensures metadataCache == map[]
    {
      metadataCache := map[];
    }

    /** `metadata_cache.get(namespace, [])`. */
    function CacheOf(namespace: OptStr): seq<Record>
      reads this
    {
      Lookup(metadataCache, namespace)
    }

    /** `setup`: reset the cache, then rebuild it from the backend. */
    method Setup(backend: FileSystem) returns (err: Option<Exc>)
      modifies this
      ensures err.Some? <==> exists ns :: HasCorruptIn(backend.tree, ns)
      ensures err.Some? ==> err.value == AttributeError
      ensures forall k :: k in metadataCache ==> IsNamespaceKey(k, backend.tree)
      ensures err.None? ==> forall k :: k in metadataCache <==> IsNamespaceKey(k, backend.tree)
      ensures err.None? ==> forall ns :: ns in backend.tree ==>
        PyStr(ns) in metadataCache && RebuiltFrom([], metadataCache[PyStr(ns)], backend.tree, ns)
    {
      metadataCache := map[];
      err := CreateCache(backend);
    }

    /**
     * The inner loop of `create_cache`: append the record of each box in `ids` to the list of
     * `namespace`. A box that does not load is `False`, and `metadata_from_box(False)`
     * raises AttributeError.
     */
    method AppendRecords(backend: FileSystem, namespace: string, ids: seq<string>) returns (err: Option<Exc>)
      requires PyStr(namespace) in metadataCache
      modifies this
      ensures PyStr(namespace) in metadataCache
      ensures metadataCache == old(metadataCache)[PyStr(namespace) := metadataCache[PyStr(namespace)]]
      ensures old(metadataCache)[PyStr(namespace)] <= metadataCache[PyStr(namespace)]
      ensures err.Some? ==> err == Some(AttributeError)
      ensures err.Some? <==> exists id :: id in ids && Load(backend.tree, namespace, id).None?
      ensures err.None? ==>
        metadataCache[PyStr(namespace)] == old(metadataCache)[PyStr(namespace)] + MetadataOf(backend.tree, namespace, ids)
    {
      var key := PyStr(namespace);
      ghost var t := backend.tree;
      for j := 0 to |ids|
        invariant key in metadataCache && metadataCache == old(metadataCache)[key := metadataCache[key]]
        invariant forall id :: id in ids[..j] ==> Load(t, namespace, id).Some?
        invariant metadataCache[key] == old(metadataCache)[key] + MetadataOf(t, namespace, ids[..j])
      {
        var b, _ := backend.Retrieve(namespace, ids[j]);
        if b.None? {
          assert ids[j] in ids;
          return Some(AttributeError);
        }
        MetadataOfStep(t, namespace, ids, j);
        metadataCache := metadataCache[key := metadataCache[key] + [MetadataFromBox(b.value)]];
      }
      assert ids[..|ids|] == ids;
      err := None;
    }

    /**
     * The body of the outer loop of `create_cache` for one namespace: make sure the key
     * exists, then append the record of every listed box.
     */
    method CacheNamespace(backend: FileSystem, namespace: string) returns (err: Option<Exc>)
      requires namespace in backend.tree
      modifies this
      ensures GrewOnlyAt(old(metadataCache), metadataCache, PyStr(namespace))
      ensures err.Some? <==> HasCorruptIn(backend.tree, namespace)
      ensures err.Some? ==> err.value == AttributeError
      ensures err.None? ==>
        RebuiltFrom(Lookup(old(metadataCache), PyStr(namespace)), metadataCache[PyStr(namespace)], backend.tree, namespace)
    {
      var key := PyStr(namespace);
      ghost var start := CacheOf(key);
      if key !in metadataCache {
        metadataCache := metadataCache[key := []];
      }
      var ids := backend.List(namespace);
      err := AppendRecords(backend, namespace, ids);
      if err.Some? {
        var id :| id in ids && Load(backend.tree, namespace, id).None?;
        assert backend.tree[namespace][id].Corrupt?;
      } else {
        assert RebuiltFrom(start, metadataCache[key], backend.tree, namespace);
        forall id | id in backend.tree[namespace]
          ensures backend.tree[namespace][id].Pickled?
        {
          assert id in ids;
        }
      }
    }

    /**
     * `create_cache`: for every namespace directory, append the record of every box in it.
     * Nothing is cleared first, and a box that does not load stops the rebuild half way.
     */
    method CreateCache(backend: FileSystem) returns (err: Option<Exc>)
      modifies this
      ensures err.Some? <==> exists ns :: HasCorruptIn(backend.tree, ns)
      ensures err.Some? ==> err.value == AttributeError
      ensures Grown(old(metadataCache), metadataCache, backend.tree)
      ensures err.None? ==> RebuiltNamespaces(old(metadataCache), metadataCache, backend.tree, backend.tree.Keys)
    {
      var namespaces := backend.ListNamespaces();
      ghost var t := backend.tree;
      ghost var done: set<string> := {};
      for i := 0 to |namespaces|
        invariant forall ns :: ns in done <==> ns in namespaces[..i]
        invariant RebuiltNamespaces(old(metadataCache), metadataCache, t, done)
      {
        var namespace := namespaces[i];
        EnumerationStep(namespaces, t.Keys, i, done);
        ghost var mid := metadataCache;
        err := CacheNamespace(backend, namespace);
        if err.Some? {
          StoppedRebuildGrown(old(metadataCache), mid, metadataCache, t, done, namespace);
          return;
        }
        RebuiltStep(old(metadataCache), mid, metadataCache, t, done, namespace);
        done := done + {namespace};
      }
      EnumerationStep(namespaces, t.Keys, |namespaces|, done);
      FinishedRebuild(old(metadataCache), metadataCache, t);
      err := None;
    }

    /**
     * `delete_metadata_from_cache`: walk the namespace's list by index, removing (by first
     * equal element) every record that matches, while the index keeps advancing.
     */
    method DeleteMetadataFromCache(namespace: OptStr, boxId: OptStr, name: OptStr) returns (err: Option<Exc>)
      modifies this
      ensures namespace !in old(metadataCache) ==> metadataCache == old(metadataCache) && err == None
      ensures namespace in old(metadataCache) ==>
        var s := Scan(old(metadataCache)[namespace], 0, boxId, name);
        metadataCache == old(metadataCache)[namespace := s.remaining] && err == s.error
    {
      if namespace !in metadataCache {
        return None;
      }
      var lst := metadataCache[namespace];
      var i := 0;
      while i < |lst|
        invariant metadataCache == old(metadataCache)[namespace := lst]
        invariant Scan(lst, i, boxId, name) == Scan(old(metadataCache)[namespace], 0, boxId, name)
        decreases |lst| - i
      {
        var cache := lst[i];
        var hit := Matches(cache, boxId, name);
        if hit.Raise? {
          assert Scan(lst, i, boxId, name) == Scanned(lst, Some(hit.error));
          return Some(hit.error);
        }
        if hit.value {
          assert Scan(lst, i, boxId, name) == Scan(RemoveFirst(lst, cache), i + 1, boxId, name);
          lst := RemoveFirst(lst, cache);
          metadataCache := metadataCache[namespace := lst];
        }
        i := i + 1;
      }
      err := None;
    }

    /** `add_metadata_to_cache`: append the box's record to its namespace's list, creating the list if needed. */
    method AddMetadataToCache(b: Box)
      modifies this
      ensures metadataCache == old(metadataCache)[b.namespace := old(CacheOf(b.namespace)) + [MetadataFromBox(b)]]
    {
      var cache := MetadataFromBox(b);
      if b.namespace !in metadataCache {
        metadataCache := metadataCache[b.namespace := []];
      }
      metadataCache := metadataCache[b.namespace := metadataCache[b.namespace] + [cache]];
    }

    /**
     * `search_metadata_by`: the records of the namespace whose field matches `.*query.*`,
     * in cache order; a field holding None makes `re.match` raise TypeError.
     */
    method SearchMetadataBy(namespace: OptStr, filterOption: string, query: string) returns (r: Result<seq<Record>>)
      requires IsLiteral(query)
      ensures r == Search(CacheOf(namespace), filterOption, query)
    {
      var namespaceCache := CacheOf(namespace);
      var results := [];
      for i := 0 to |namespaceCache|
        invariant !HasNoneField(namespaceCache[..i], filterOption)
        invariant results == Filtered(namespaceCache[..i], filterOption, query)
      {
        var metadata := namespaceCache[i];
        var fieldValue := FieldText(metadata, filterOption);
        if fieldValue.PyNone? {
          return Raise(TypeError);
        }
        if DotStarMatch(query, fieldValue.s) {
          results := results + [metadata];
        }
        assert namespaceCache[..i + 1][..i] == namespaceCache[..i];
        assert forall k :: 0 <= k < i ==> namespaceCache[..i + 1][k] == namespaceCache[..i][k];
      }
      assert namespaceCache[..|namespaceCache|] == namespaceCache;
      r := Ok(results);
    }

    /**
     * `event_create`: a box of the event's data in the event's namespace, with no name, is
     * written and indexed, and handed to the callback; a missing key skips both.
     */
    method EventCreate(content: EventContent, backend: FileSystem, token: UuidHex, now: string) returns (c: Completion)
      modifies this, backend
      ensures content.data.None? || content.namespace.None? ==>
        && c == ExecuteCallback(content.callback, ReplyNone, true)
        && metadataCache == old(metadataCache) && backend.tree == old(backend.tree)
      ensures content.data.Some? && content.namespace.Some? ==>
        var b := NewBox(content.data.value, PyStr(content.namespace.value), PyNone, token, now);
        && backend.tree == Written(old(backend.tree), content.namespace.value, b)
        && metadataCache == old(metadataCache)[b.namespace := old(CacheOf(b.namespace)) + [MetadataFromBox(b)]]
        && c == ExecuteCallback(content.callback, ReplyBox(b), false)
      ensures backend.destinationPath == old(backend.destinationPath) && backend.lockPath == old(backend.lockPath)
    {
      if content.data.None? || content.namespace.None? {
        c := ExecuteCallback(content.callback, ReplyNone, true);
        return;
      }
      var box := NewBox(content.data.value, PyStr(content.namespace.value), PyNone, token, now);
      var _, _ := backend.Create(box);
      AddMetadataToCache(box);
      c := ExecuteCallback(content.callback, ReplyBox(box), false);
    }

    /** `event_retrieve`: the stored box (or `False`) goes to the callback; a missing key reports an error. */
    method EventRetrieve(content: EventContent, backend: FileSystem) returns (c: Completion)
      ensures content.namespace.None? || content.boxId.None? ==> c == ExecuteCallback(content.callback, ReplyNone, true)
      ensures content.namespace.Some? && content.boxId.Some? ==>
        c == ExecuteCallback(content.callback, Found(Load(backend.tree, content.namespace.value, content.boxId.value)), false)
    {
      if content.namespace.None? || content.boxId.None? {
        return ExecuteCallback(content.callback, ReplyNone, true);
      }
      var box, _ := backend.Retrieve(content.namespace.value, content.boxId.value);
      c := ExecuteCallback(content.callback, Found(box), false);
    }

    /**
     * `event_update`: a missing namespace or box id leaves a local unbound, so the handler
     * dies with UnboundLocalError. Otherwise a stored box gets its data replaced (PUT) or
     * merged (PATCH, the default) and is written back under the event's namespace; a failed
     * merge escapes before the write, and a missing box is reported as `False`.
     */
    method EventUpdate(content: EventContent, backend: FileSystem) returns (c: Completion)
      modifies backend
      ensures content.namespace.None? || content.boxId.None? ==>
        c == Completion([], Some(UnboundLocalError)) && backend.tree == old(backend.tree)
      ensures content.namespace.Some? && content.boxId.Some? ==>
        var namespace := content.namespace.value;
        match Load(old(backend.tree), namespace, content.boxId.value)
        case None =>
          backend.tree == old(backend.tree) && c == ExecuteCallback(content.callback, ReplyBool(false), false)
        case Some(box) =>
          var d := UpdatedData(content.verb.GetOr("PATCH"), box.data, content.data.GetOr(JDict(map[])));
          && (d.Raise? ==> backend.tree == old(backend.tree) && c == Completion([], Some(d.error)))
          && (d.Ok? ==>
                backend.tree == Written(old(backend.tree), namespace, box.(data := d.value))
                && c == ExecuteCallback(content.callback, ReplyBox(box.(data := d.value)), false))
      ensures backend.destinationPath == old(backend.destinationPath) && backend.lockPath == old(backend.lockPath)
    {
      if content.namespace.None? || content.boxId.None? {
        return Completion([], Some(UnboundLocalError));
      }
      var namespace := content.namespace.value;
      var box, _ := backend.Retrieve(namespace, content.boxId.value);
      var verb := content.verb.GetOr("PATCH");
      var data := content.data.GetOr(JDict(map[]));
      if box.None? {
        return ExecuteCallback(content.callback, ReplyBool(false), false);
      }
      var d := UpdatedData(verb, box.value.data, data);
      if d.Raise? {
        return Completion([], Some(d.error));
      }
      var updated := box.value.(data := d.value);
      var _, _ := backend.Update(namespace, updated);
      c := ExecuteCallback(content.callback, ReplyBox(updated), false);
    }

    /**
     * `event_delete`: unlink the file, then drop the box's records from the cache by id
     * with no name. A KeyError from the cache walk is reported like a missing key; a
     * TypeError (a record that does not contain the id) escapes, and the callback is not run.
     */
    method EventDelete(content: EventContent, backend: FileSystem) returns (c: Completion)
      modifies this, backend
      ensures content.namespace.None? || content.boxId.None? ==>
        && c == ExecuteCallback(content.callback, ReplyNone, true)
        && metadataCache == old(metadataCache) && backend.tree == old(backend.tree)
      ensures content.namespace.Some? && content.boxId.Some? ==>
        var namespace, boxId := content.namespace.value, content.boxId.value;
        var existed := namespace in old(backend.tree) && boxId in old(backend.tree)[namespace];
        var s := Scan(old(CacheOf(PyStr(namespace))), 0, PyStr(boxId), PyNone);
        && backend.tree == Unlinked(old(backend.tree), namespace, boxId)
        && metadataCache == (if PyStr(namespace) in old(metadataCache)
                             then old(metadataCache)[PyStr(namespace) := s.remaining]
                             else old(metadataCache))
        && c == (if s.error == Some(KeyError) then ExecuteCallback(content.callback, ReplyNone, true)
                 else if s.error.Some? then Completion([], s.error)
                 else ExecuteCallback(content.callback, ReplyBool(existed), false))
      ensures backend.destinationPath == old(backend.destinationPath) && backend.lockPath == old(backend.lockPath)
    {
      if content.namespace.None? || content.boxId.None? {
        return ExecuteCallback(content.callback, ReplyNone, true);
      }
      var namespace, boxId := content.namespace.value, content.boxId.value;
      var result := backend.Delete(namespace, boxId);
      var err := DeleteMetadataFromCache(PyStr(namespace), PyStr(boxId), PyNone);
      if err == Some(KeyError) {
        c := ExecuteCallback(content.callback, ReplyNone, true);
      } else if err.Some? {
        c := Completion([], err);
      } else {
        c := ExecuteCallback(content.callback, ReplyBool(result), false);
      }
    }

    /** `event_list`: the file names of the namespace go to the callback; a missing key reports an error. */
    method EventList(content: EventContent, backend: FileSystem) returns (c: Completion)
      ensures content.namespace.None? ==> c == ExecuteCallback(content.callback, ReplyNone, true)
      ensures content.namespace.Some? ==> exists ids ::
        IsEnumeration(ids, DirOf(backend.tree, content.namespace.value).Keys)
        && c == ExecuteCallback(content.callback, ReplyIds(ids), false)
    {
      if content.namespace.None? {
        return ExecuteCallback(content.callback, ReplyNone, true);
      }
      var ids := backend.List(content.namespace.value);
      c := ExecuteCallback(content.callback, ReplyIds(ids), false);
    }
  }
}
