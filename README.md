# kytos/storehouse in Dafny

kytos/storehouse is the persistence NApp of the Kytos SDN controller. It is a small
document store. Each document is a *box*: some `data`, a `namespace`, an optional `name`,
a generated `box_id`, a creation timestamp and an `owner`.

Boxes are pickled into one file per box, under one directory per namespace, by the
filesystem backend. The NApp keeps an in-memory *metadata cache* beside the store. The
cache maps each namespace to the ordered list of its boxes' metadata records.

Controller events drive the NApp: create, retrieve, update, delete and list. Each handler:

1. reads keys from the event content;
2. calls the backend;
3. updates the cache;
4. hands `(result, error)` to the callback in the event.

This project models the following:

- **The box and its projections** (`boxes.dfy`, module `Boxes`).
  - The box constructor, `to_dict`, `from_json` and `metadata_from_box`.
  - The update rule shared by the REST and event update paths. PUT replaces the data.
    PATCH merges with `dict.update`, including the exceptions `dict.update` raises on
    other arguments.
- **Paths and locks** (`paths.dfy`, module `Paths`).
  - How the backend normalises its two configured directories: it strips one leading
    separator, then joins the path under `VIRTUAL_ENV`, or under `/` when that is unset.
  - The name of the lock file that guards every read and write of a box file.
- **The filesystem backend** (`fs.dfy`, module `FsBackend`).
  - The directory tree is a map from namespace to (file name → stored file). A stored
    file is either a pickled box or bytes that fail to unpickle.
  - `FileSystem` is a class whose methods update that map: `create`, `update` and
    `delete`.
  - Its read-only queries are `retrieve`, `list`, `list_namespaces` and `backup`.
  - Directory listing order is the filesystem's own. The model leaves it open: a listing
    is any enumeration of the entries.
- **The cache semantics** (`cache.dfy`, module `Cache`).
  - The `.*query.*` match used by the search.
  - The search as a filter in cache order.
  - The delete loop of `delete_metadata_from_cache`. It removes from the list it is
    iterating over, matches by substring, and can raise part way through.
- **The NApp** (`main.dfy`, module `Napp`).
  - The `Main` class with its `metadata_cache` field.
  - The cache operations: `setup`, `create_cache`, `add_metadata_to_cache`,
    `delete_metadata_from_cache` and `search_metadata_by`.
  - `_execute_callback` and the five event handlers. The backend is passed in as a
    `FileSystem` object. The uuid token and the timestamp are parameters.

The model keeps the behaviour of the code as written. These behaviours follow from it and
are stated as lemmas:

- **The delete loop skips records.** Once a record is removed, the next record slides into
  the visited slot and is never examined. When every record matches, only `(n + 1) / 2` of
  `n` are removed (`ScanAllMatchingRemovesHalf`, `ScanSkipsNextRecord`).
- **Records are matched by substring.** Deleting id `ab` also removes a record for `abc`.
- **`event_delete` passes no name, so a non-matching record raises.** The cache walk
  raises TypeError (`None in str`) at the first record it visits that does not contain
  the id. That TypeError escapes `event_delete`, and the callback is never run. The file
  is already unlinked. When a non-matching record is visited before the deleted box's
  record, the cache keeps that record (`StaleRecordAfterDelete`, `Napp.Main.EventDelete`).
- **Two searches can never succeed as intended.**
  - Searching by `owner` raises TypeError whenever the namespace holds a box, because the
    owner is always None (`SearchByOwnerRaises`).
  - The default `filter_option="id"` finds nothing for a non-empty literal query, because
    metadata records have no `id` key (`SearchByIdFindsNothing`).
- **`create_cache` never clears the cache.** A second run lists every box twice
  (`RebuildTwiceDuplicates`). A file that does not unpickle makes `metadata_from_box(False)`
  raise AttributeError, which stops the rebuild part way.
- **`event_update` can end in UnboundLocalError.** With the namespace or box id missing,
  the handler reads an unbound local. The model returns that error, and no callback runs.
- **Only one leading separator is stripped from a configured path.** A path starting with
  `//` stays absolute and escapes the virtualenv (`DoubleSlashEscapesVirtualEnv`).
- **Lock names can collide.** Flattening `/` to `.` is not injective, so two different
  box files can share one lock (`FlattenNotInjective`, `DistinctFilesShareLock`).

## Model

| member | source | states |
|---|---|---|
| Boxes.NewBox | main.py:30-43 | a new box holds the given data, namespace and name; its id is 32 lower-case hex digits, its timestamp is the current time and its owner is None |
| Boxes.ToDict | main.py:64-71 | the dictionary has exactly the keys data, namespace, owner, created_at, id and name, and each holds the box's own value: its data, namespace, owner, timestamp, id and name |
| Boxes.GetOptStr | main.py:59-61 | `raw.get(key)` reads a missing key as None; a present value is accepted exactly when it is null or a string, and is then returned unchanged |
| Boxes.FromJson | main.py:55-62 | a document gives a box exactly when its namespace and name are None or strings (a missing key reads as None); the box's namespace and name are the values `raw.get` reads; the data is the document's `data` or None; the id and timestamp are fresh and the owner is None |
| Boxes.MetadataFromBox | main.py:19-24 | a metadata record has exactly the keys box_id, name, owner and created_at |
| Boxes.MetadataIsProjectionOfDict | main.py:19-24 | the metadata record is `to_dict` without data and namespace, with `id` renamed `box_id`; with the contract of `to_dict`, each value is the box's own id, name, owner and timestamp |
| Boxes.FromJsonOfToDict | main.py:55-71 | `from_json(to_dict(b))` keeps the data, namespace and name of `b`, but mints a new id and timestamp and resets the owner |
| Boxes.FromJsonOfToDictIdentity | main.py:55-71 | the round trip gives back the same box exactly when the box already has that id and timestamp and no owner |
| Boxes.FromJsonOfEmpty | main.py:58-62 | the empty document gives a box whose data, namespace and name are all None |
| Boxes.Merge | main.py:210 | `data.update(patch)` raises AttributeError unless the data is a dict; a dict patch always succeeds; the result has the union of the keys, the patch's values win, and keys the patch lacks keep their old values |
| Boxes.UpdatedData | main.py:316-320 | PUT gives the new data; PATCH on dict data gives the old dict overridden by the new one and raises AttributeError on non-dict data; any other method leaves the data unchanged |
| Boxes.PutReplacesPatchMerges | main.py:313-320 | PUT replaces the data with the update; PATCH gives the old data overridden by the update, so keys absent from the update survive |
| Boxes.UpdateExample | main.py:207-210 | `{"a":1,"b":2}` updated by `{"b":3}` gives `{"a":1,"b":3}` under PATCH and `{"b":3}` under PUT |
| Boxes.PatchIdempotent | main.py:319-320 | applying the same PATCH twice equals applying it once |
| Paths.BaseEnv | backends/fs.py:49 | the base directory is never empty (that an unset or empty `VIRTUAL_ENV` gives `/` is stated by `EmptyVirtualEnvIsRoot` and `DefaultSettings`) |
| Paths.SettingsPathUnderBase | backends/fs.py:49-55 | `SettingsPath` (one separator stripped by `StripSep`, then `Join` under the base): a normalised path starts with the virtualenv (or `/`), and ends with a separator followed by the configured path without its leading separator |
| Paths.DoubleSlashEscapesVirtualEnv | backends/fs.py:50-55 | only one separator is stripped, so `//rest` normalises to `/rest` whatever the virtualenv is |
| Paths.EmptyVirtualEnvIsRoot | backends/fs.py:49 | an empty `VIRTUAL_ENV` behaves like an unset one |
| Paths.AbsolutePathUnderVirtualEnv | backends/fs.py:49-55 | an absolute configured path stays unchanged without a virtualenv and becomes virtualenv + path with one |
| Paths.DefaultSettings | backends/fs.py:32-55 | the default destination and lock directories are kept as they are without a virtualenv and move under it with one |
| Paths.Flatten | backends/fs.py:65 | replacing `/` by `.` keeps the length, leaves no `/`, turns every `/` into `.` and keeps every other character |
| Paths.LockFileFor | backends/fs.py:64-67 | the lock name is the lock directory, a separator, the flattened file name and `.lock`: the part between the separator and `.lock` is exactly the flattened file name, its length is the sum, and no separator follows the lock directory |
| Paths.FlattenAppend | backends/fs.py:65 | flattening distributes over concatenation |
| Paths.FlattenNotInjective | backends/fs.py:65 | `a/b` and `a.b` flatten to the same name |
| Paths.FlattenInjectiveWithoutDots | backends/fs.py:65 | on names without dots, flattening is injective |
| Paths.FilePathOfPlainNames | backends/fs.py:100-102 | for a destination without a trailing separator and plain names (non-empty, no separator, no dot), the box file is destination, namespace and id joined by separators |
| Paths.SamePathSameNames | backends/fs.py:107 | below one directory, a box path determines its namespace and id when the namespaces hold no separator |
| Paths.LockFileForInjective | backends/fs.py:64-66 | file names without dots that get the same lock are the same file name |
| Paths.PlainFilesHaveDistinctLocks | backends/fs.py:60-67 | under a dot-free destination, box files with plain names share a lock exactly when they have the same namespace and id |
| Paths.DistinctFilesShareLock | backends/fs.py:64-74 | box `c` of namespace `a.b` and box `b.c` of namespace `a` are different files with the same lock |
| FsBackend.Written | backends/fs.py:98-103 | writing a box adds its namespace directory and keeps every other directory |
| FsBackend.Unlinked | backends/fs.py:84-89 | unlinking a file never removes a directory |
| FsBackend.Load | backends/fs.py:105-111 | retrieve gives a box exactly when the file exists and unpickles, and then the box is the one stored; otherwise it gives `False` |
| FsBackend.LoadAfterWritten | backends/fs.py:98-111 | after a box is written, retrieving it gives that same box, and every other file reads as before |
| FsBackend.LoadAfterUnlinked | backends/fs.py:105-123 | after a delete, the box reads as absent, and every other file reads as before |
| FsBackend.UnlinkedListing | backends/fs.py:119-134 | a delete drops exactly that name from the namespace's listing, and the namespace directory stays |
| FsBackend.IterDir | backends/fs.py:91-96 | a directory listing names every entry exactly once |
| FsBackend.FileSystem.constructor | backends/fs.py:32-40 | the two directories are the configured ones (or the defaults) after normalisation |
| FsBackend.FileSystem.ParseSettings | backends/fs.py:42-57 | each directory becomes its normalised form, and the tree is untouched |
| FsBackend.FileSystem.BoxLock | backends/fs.py:60-67 | the lock of a box file (`_get_destination` joined with the id) is a `.lock` file directly inside the lock directory: it starts with the lock directory and a separator, ends with `.lock`, and holds no separator in between |
| FsBackend.FileSystem.BoxLockInjective | backends/fs.py:60-74 | under a dot-free destination, boxes with plain namespaces and ids share a lock exactly when they are the same box |
| FsBackend.FileSystem.Create | backends/fs.py:98-103 | a box with a namespace is written under its own id (an existing file is overwritten), under that box's lock, and its id is returned; a None namespace raises TypeError, takes no lock and changes nothing |
| FsBackend.FileSystem.Retrieve | backends/fs.py:105-111 | the result is the stored box when the file exists and unpickles, and None (`False`) otherwise; the box's lock is taken exactly when the file exists |
| FsBackend.FileSystem.Update | backends/fs.py:113-117 | the box is written under the namespace argument (not the box's own), under the lock of that path, and its id is returned; an unknown namespace raises FileNotFoundError (after the lock is taken) and changes nothing |
| FsBackend.FileSystem.Delete | backends/fs.py:119-123 | the result is true exactly when the file existed; afterwards the file is gone and the directory stays |
| FsBackend.FileSystem.List | backends/fs.py:91-96 | the listing names each file of the namespace once, and is empty for an unknown namespace |
| FsBackend.FileSystem.ListNamespaces | backends/fs.py:129-134 | the listing names each namespace directory once |
| FsBackend.FileSystem.DumpBoxes | backends/fs.py:150 | the dump succeeds exactly when every listed box loads, and maps each listed id to its box's dictionary; otherwise AttributeError |
| FsBackend.FileSystem.Backup | backends/fs.py:136-150 | an unknown namespace raises NotFoundException; otherwise the dump covers every box of the namespace (no id) or exactly the one id asked for, and fails when one of them does not load |
| Cache.DotStarMatchIsOccurrence | main.py:147 | `DotStarMatch`, the match of `.*query.*` holds exactly when the query occurs at a position that no newline precedes |
| Cache.LiteralMatchIsSubstring | main.py:147 | on a value without newlines, the match is Python's `query in value` |
| Cache.FieldText | main.py:146 | a missing field reads as the empty string |
| Cache.Search | main.py:143-150 | for a literal query, the search raises TypeError exactly when some record holds None in the field; otherwise it returns the filtered records |
| Cache.Filtered | main.py:143-150 | the loop's result never holds more records than the namespace's list |
| Cache.FilteredMembers | main.py:145-148 | a record is in the result exactly when it is in the cache and its field is a string that the pattern matches |
| Cache.FilteredConcat | main.py:143-150 | the filter distributes over concatenation, so the results keep the cache order |
| Cache.EmptyQueryKeepsAll | main.py:147 | the empty query returns every record when no field is None |
| Cache.SearchByIdFindsNothing | main.py:130-150 | with the default `id` field, a non-empty literal query finds no box record |
| Cache.SearchByOwnerRaises | main.py:146-147 | searching by owner with a literal query raises TypeError as soon as the namespace holds a box record |
| Cache.PyIn | main.py:120 | `needle in hay` is a substring test on two strings and raises TypeError when either side is None |
| Cache.FieldIn | main.py:120 | a missing key raises KeyError before the containment test |
| Cache.Matches | main.py:120 | the id test comes first; a hit short-circuits, and a miss falls through to the name test |
| Cache.FirstIndex | main.py:121 | the position `list.remove` looks for holds the element, and no earlier position does |
| Cache.RemoveFirst | main.py:121 | `list.remove` drops exactly one occurrence of the element: the list is one shorter and its multiset loses one copy of the element |
| Cache.RemoveFirstShifts | main.py:121 | the elements before the first occurrence stay in place and every element after it moves down by one |
| Cache.RemoveFirstSplicesFirstIndex | main.py:121 | the element removed is the first occurrence, and the elements before and after it keep their order |
| Cache.Scan | main.py:119-121 | the delete loop never lengthens the list |
| Cache.ScanOnlyRemovesMatches | main.py:119-121 | the delete loop only removes records, and only records that match |
| Cache.ScanAllMatchingRemovesHalf | main.py:119-121 | when every record matches, the loop raises nothing and removes only `(n + 1) / 2` of the `n` records it reaches |
| Cache.ScanSkipsNextRecord | main.py:119-121 | deleting `ab` from `[ab, abc]` removes the first record and skips the second, which also matches |
| Cache.NoNameRaisesOnFirstMiss | main.py:120 | with no name, a visited record that does not contain the id raises TypeError, and the loop stops there with the list as it stands |
| Cache.StaleRecordAfterDelete | main.py:110-121 | deleting `b2` from `[a1, b2]` with no name raises on `a1`, which is visited first, and leaves both records, the deleted box's included |
| Napp.ExecuteCallback | main.py:152-161 | the callback is called at most once, with `(result, error)`, and only if it is present and callable; KeyError and TypeError it raises are swallowed, and any other exception escapes |
| Napp.Found | main.py:283-289 | the reply is a box exactly when one was retrieved, and then it is that box; otherwise it is `False` |
| Napp.MetadataOf | main.py:105-108 | one record per listed box |
| Napp.MetadataOfAt | main.py:105-108 | the record at each position is the metadata of the box listed at that position |
| Napp.RebuiltLength | main.py:101-108 | a rebuild keeps the existing records as a prefix and appends exactly one record per file of the namespace |
| Napp.RebuildTwiceDuplicates | main.py:86-108 | `create_cache` after `setup` leaves two records per box in every namespace: the first run's records first, then the same records again, each run in its own listing order |
| Napp.RebuiltSameRecords | main.py:101-108 | two rebuilds of one namespace append the same multiset of records |
| Napp.EnumerationsGiveSameRecords | main.py:105-108 | two listings of one directory give the same records, each in its own order |
| Napp.MetadataOfPermutation | main.py:105-108 | listings holding the same ids, in any order, give the same multiset of records |
| Napp.EnumerationMultiset | backends/fs.py:91-96 | a listing holds each entry of the directory exactly once and nothing else |
| Napp.EnumerationLength | backends/fs.py:91-96 | a listing is as long as the set of entries it lists |
| Napp.Main.constructor | main.py:84 | the cache starts empty |
| Napp.Main.Setup | main.py:86-93 | after `setup` the cache has exactly one key per namespace directory, and each key holds one record per box in some listing order; a file that does not unpickle makes it raise AttributeError |
| Napp.Main.AppendRecords | main.py:105-108 | the records of the listed boxes are appended in listing order, and the first box that does not load raises AttributeError |
| Napp.Main.CacheNamespace | main.py:102-108 | the namespace's list is created if absent and grows by one record per box; no other key changes |
| Napp.Main.CreateCache | main.py:98-108 | only the lists of namespace directories change, and only by growing at their end; AttributeError is raised exactly when some file does not unpickle; otherwise every namespace gets one record per box appended |
| Napp.Main.DeleteMetadataFromCache | main.py:110-121 | an absent namespace is never created; only that namespace's list changes, and it changes exactly as the delete loop does, exception included |
| Napp.Main.AddMetadataToCache | main.py:123-128 | the box's record is appended as the last element of its namespace's list (created empty if absent), and nothing else changes |
| Napp.Main.SearchMetadataBy | main.py:130-150 | the result is the search over the namespace's records (empty for an unknown namespace), and the cache is not modified |
| Napp.Main.EventCreate | main.py:260-274 | a missing key reports `(None, True)` and changes nothing; otherwise the box is written, its record is appended, and the callback gets `(box, False)` |
| Napp.Main.EventRetrieve | main.py:276-289 | a missing key reports `(None, True)`; otherwise the callback gets the stored box or `False`, with error False |
| Napp.Main.EventUpdate | main.py:291-324 | a missing namespace or id raises UnboundLocalError; a missing box reports `False` and writes nothing; otherwise the box gets the PUT/PATCH update (PATCH by default) and is written back, unless the merge raises first |
| Napp.Main.EventDelete | main.py:326-341 | a missing key reports `(None, True)` and changes nothing; otherwise the file is unlinked and the cache goes through the delete loop; a KeyError there reports `(None, True)`, a TypeError escapes with no callback, and otherwise the callback gets whether the file existed |
| Napp.Main.EventList | main.py:343-356 | a missing key reports `(None, True)`; otherwise the callback gets a listing of the namespace's files |

## Left out

- Napp.Main.SearchMetadataBy: requires a query without regular-expression metacharacters. For such a query `.*query.*` is modelled exactly. Full regular-expression matching, and the `re.error` a malformed pattern raises, are not modelled.
- Cache.Search: requires a literal query, as `SearchMetadataBy` does; the search lemmas (`SearchByIdFindsNothing`, `SearchByOwnerRaises`) are stated for literal queries only. A pattern such as `x*` matches the empty field, and a malformed one raises `re.error` before any TypeError; neither is modelled.
- Boxes.FromJson: a namespace or name that is neither a string nor null has no box in the model (`None`), while Python stores any JSON value there. The JSON text and `json.loads` are not modelled: the input is the parsed document.
- Boxes.Merge: `dict.update` with a non-empty list or string is modelled as ValueError. The model does not accept a list of key/value pairs, and does not keep the entries applied before the failing one.
- Napp.Main.CreateCache: when a bad file stops the rebuild, the contract says only that each list grew at its end. The records appended so far depend on listing order and are not pinned down.
- Napp.Main.EventCreate: the event content's namespace, box id and method are strings or absent. Other value types (for example a None namespace, which makes `create` raise TypeError) are modelled only at the backend level (`FsBackend.FileSystem.Create`).
- Napp.Main.EventUpdate: the event content's namespace and box id are strings or absent, as for `EventCreate`.
- Napp.Main: `metadata_cache` is a class attribute, shared by every instance until `setup` rebinds it on one of them. The model gives each `Main` its own cache, starting empty.
- The event object is not passed to the callback. The model records only the `(result, error)` pair and what the callback raises.
- Paths: pathlib normalisation is not modelled, nor are special components: an empty part, `.`, `..`, or a namespace or id that contains `/`. `Join` covers plain names only.
- The directory tree: nested directories inside a namespace and stray files beside the namespaces are not modelled. The filtering by `is_dir()` in the listings is therefore not visible.
- `_create_dirs` on the two configured directories is not modelled. The tree is given to the constructor as it stands.
- Locking: `FileLock` and cross-process exclusion are concurrency and are not modelled. Only the lock name is.
- FsBackend.FileSystem.Backup: each dumped value is the box's dictionary (`to_dict`), where `backup` stores its JSON text (`to_json`); JSON serialisation is not modelled.
- Pickle is not modelled. A stored file either holds a box exactly or fails to unpickle (`PickleError`, which gives `False`).
- `uuid4().hex` and `datetime.utcnow()` are parameters of the model (`token`, `now`).
- Logging is not modelled: the `log` calls, and the deprecation warnings of the `name` property.
- The REST handlers (`rest_*`), Flask, `request` and `jsonify` are not modelled, apart from the PUT/PATCH rule they share with `event_update`. Two of their faults are not modelled either:
  - `rest_backup` catches ValueError, but `backup` raises `NotFoundException`, which is not a ValueError.
  - The unit tests expect status codes that differ from the ones the handlers return.
- backends/etcd.py, backends/base.py, api.py and settings.py are not part of this model. The settings values appear only as the defaults of `FileSystem`.
