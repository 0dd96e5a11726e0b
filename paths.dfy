/**
 * The path arithmetic of the filesystem backend: joining, the normalisation of the two
 * configured directories, and the name of the lock file that guards a box file.
 */
module Paths {
  import opened Values

  /** The defaults `FileSystem` falls back on; the settings module configures the same values. */
  const DefaultDestinationPath: string := "/var/tmp/kytos/storehouse"
  const DefaultLockPath: string := "/var/tmp/lock"

  /** `Path(base).joinpath(part)` for paths without `.` components, `//` or trailing separators. */
  function Join(base: string, part: string): string
  {
    if |part| > 0 && part[0] == '/' then part
    else if part == "" then base
    else if base == "" then part
    else if base[|base| - 1] == '/' then base + part
    else base + "/" + part
  }

  /** Drops one leading separator, if there is one. */
  function StripSep(p: string): string
  {
    if |p| > 0 && p[0] == '/' then p[1..] else p
  }

  /** `os.environ.get('VIRTUAL_ENV', None) or '/'`: an unset or empty variable means the root. */
  function BaseEnv(virtualEnv: Option<string>): (base: string)
    ensures base != ""
  {
    if virtualEnv.Some? && virtualEnv.value != "" then virtualEnv.value else "/"
  }

  /** What `_parse_settings` makes of one configured directory. */
  function SettingsPath(configured: string, virtualEnv: Option<string>): string
  {
    Join(BaseEnv(virtualEnv), StripSep(configured))
  }

  /**
   * A configured path with at most one leading separator ends up under the virtualenv
   * (or under the root when there is none), followed by the configured path.
   */
  lemma SettingsPathUnderBase(configured: string, virtualEnv: Option<string>)
    requires StripSep(configured) != "" && StripSep(configured)[0] != '/'
    ensures IsPrefix(BaseEnv(virtualEnv), SettingsPath(configured, virtualEnv))
    ensures var r := SettingsPath(configured, virtualEnv);
      var rel := StripSep(configured);
      |rel| < |r| && r[|r| - |rel|..] == rel && r[|r| - |rel| - 1] == '/'
  {
    var base, rel := BaseEnv(virtualEnv), StripSep(configured);
    var r := SettingsPath(configured, virtualEnv);
    if base[|base| - 1] == '/' {
      assert r == base + rel;
    } else {
      assert r == base + "/" + rel;
    }
    assert r[..|base|] == base;
  }

  /** Only one separator is stripped: a path starting with `//` stays absolute and escapes the virtualenv. */
  lemma DoubleSlashEscapesVirtualEnv(rest: string, virtualEnv: Option<string>)
    ensures SettingsPath("//" + rest, virtualEnv) == "/" + rest
  {
    assert StripSep("//" + rest) == "/" + rest;
  }

  /** An empty `VIRTUAL_ENV` behaves like an unset one. */
  lemma EmptyVirtualEnvIsRoot(configured: string)
    ensures SettingsPath(configured, Some("")) == SettingsPath(configured, None)
  {
  }

  /**
   * An absolute configured path (one leading separator) stays where it is without a
   * virtualenv, and moves under the virtualenv when there is one.
   */
  lemma AbsolutePathUnderVirtualEnv(configured: string, venv: string)
    requires |configured| > 1 && configured[0] == '/' && configured[1] != '/'
    requires venv != "" && venv[|venv| - 1] != '/'
    ensures SettingsPath(configured, None) == configured
    ensures SettingsPath(configured, Some(venv)) == venv + configured
  {
    var rel := configured[1..];
    assert StripSep(configured) == rel;
    assert configured == "/" + rel;
    assert Join(venv, rel) == venv + "/" + rel;
  }

  /** The shipped defaults, with and without a virtualenv. */
  lemma DefaultSettings()
    ensures SettingsPath(DefaultDestinationPath, None) == DefaultDestinationPath
    ensures SettingsPath(DefaultLockPath, None) == DefaultLockPath
    ensures SettingsPath(DefaultDestinationPath, Some("/venv")) == "/venv" + DefaultDestinationPath
    ensures SettingsPath(DefaultLockPath, Some("/venv")) == "/venv" + DefaultLockPath
  {
    AbsolutePathUnderVirtualEnv(DefaultDestinationPath, "/venv");
    AbsolutePathUnderVirtualEnv(DefaultLockPath, "/venv");
  }

  /** The path of the file holding one box: `Path(destination, namespace).joinpath(box_id)`. */
  function FilePath(destination: string, namespace: string, boxId: string): string
  {
    Join(Join(destination, namespace), boxId)
  }

  function Dotted(c: char): char
  {
    if c == '/' then '.' else c
  }

  /** `str(filename).replace('/', '.')`. */
  function Flatten(p: string): (r: string)
    ensures |r| == |p|
    ensures '/' !in r
    ensures forall i :: 0 <= i < |p| && p[i] != '/' ==> r[i] == p[i]
    ensures forall i :: 0 <= i < |p| && p[i] == '/' ==> r[i] == '.'
  {
    if p == [] then [] else [Dotted(p[0])] + Flatten(p[1..])
  }

  /** The lock file that guards every read and every write of `filename`. */
  function LockFileFor(lockPath: string, filename: string): (lock: string)
    ensures IsPrefix(lockPath + "/", lock)
    ensures |lock| == |lockPath| + |filename| + 6
    ensures lock[|lock| - 5..] == ".lock"
    ensures '/' !in lock[|lockPath| + 1..|lock| - 5]
    ensures lock[|lockPath| + 1..|lock| - 5] == Flatten(filename)
  {
    var r := lockPath + "/" + Flatten(filename) + ".lock";
    assert r[|lockPath| + 1..|r| - 5] == Flatten(filename);
    r
  }

  lemma FlattenAppend(a: string, b: string)
    ensures Flatten(a + b) == Flatten(a) + Flatten(b)
  {
    var l, r := Flatten(a + b), Flatten(a) + Flatten(b);
    forall i | 0 <= i < |l|
      ensures l[i] == r[i]
    {
      if i < |a| {
        assert (a + b)[i] == a[i] && r[i] == Flatten(a)[i];
      } else {
        assert (a + b)[i] == b[i - |a|] && r[i] == Flatten(b)[i - |a|];
      }
    }
  }

  /** Flattening is not injective: `a/b` and `a.b` get the same lock. */
  lemma FlattenNotInjective()
    ensures Flatten("a/b") == Flatten("a.b") && "a/b" != "a.b"
  {
  }

  /** On paths without dots, flattening loses nothing. */
  lemma FlattenInjectiveWithoutDots(p: string, q: string)
    requires '.' !in p && '.' !in q
    requires Flatten(p) == Flatten(q)
    ensures p == q
  {
    assert |p| == |q|;
    forall i | 0 <= i < |p|
      ensures p[i] == q[i]
    {
      assert p[i] != '.' && q[i] != '.';
    }
  }

  /** A plain name: non-empty, with neither a separator nor a dot. */
  predicate PlainName(p: string)
  {
    p != "" && '/' !in p && '.' !in p
  }

  /** For plain names under a directory without a trailing separator, the file path is the three parts joined by `/`. */
  lemma FilePathOfPlainNames(destination: string, namespace: string, boxId: string)
    requires destination != "" && destination[|destination| - 1] != '/'
    requires PlainName(namespace) && PlainName(boxId)
    ensures FilePath(destination, namespace, boxId) == destination + "/" + namespace + "/" + boxId
  {
    assert namespace[0] in namespace && boxId[0] in boxId;
    var dir := destination + "/" + namespace;
    assert Join(destination, namespace) == dir;
    assert dir[|dir| - 1] == namespace[|namespace| - 1];
    assert namespace[|namespace| - 1] in namespace;
  }

  /** A separator-free first part is recovered from `a + "/" + b`. */
  lemma SplitAtSeparator(a1: string, b1: string, a2: string, b2: string)
    requires '/' !in a1 && '/' !in a2
    requires a1 + "/" + b1 == a2 + "/" + b2
    ensures a1 == a2 && b1 == b2
  {
    var s := a1 + "/" + b1;
    assert s[|a1|] == '/' && s[|a2|] == '/';
    assert forall k :: 0 <= k < |a1| ==> s[k] == a1[k] && a1[k] in a1;
    assert forall k :: 0 <= k < |a2| ==> s[k] == a2[k] && a2[k] in a2;
    assert |a1| == |a2|;
    assert a1 == s[..|a1|] && a2 == s[..|a2|];
    assert b1 == s[|a1| + 1..] && b2 == s[|a2| + 1..];
  }

  /** On file paths without dots, different files get different locks. */
  lemma LockFileForInjective(lockPath: string, f1: string, f2: string)
    requires '.' !in f1 && '.' !in f2
    requires LockFileFor(lockPath, f1) == LockFileFor(lockPath, f2)
    ensures f1 == f2
  {
    var l1, l2 := LockFileFor(lockPath, f1), LockFileFor(lockPath, f2);
    assert l1[|lockPath| + 1..|l1| - 5] == Flatten(f1);
    assert l2[|lockPath| + 1..|l2| - 5] == Flatten(f2);
    FlattenInjectiveWithoutDots(f1, f2);
  }

  /** Under a dot-free directory, box files with plain names share a lock only when they are the same file. */
  lemma PlainFilesHaveDistinctLocks(lockPath: string, destination: string,
                                    ns1: string, id1: string, ns2: string, id2: string)
    requires destination != "" && destination[|destination| - 1] != '/' && '.' !in destination
    requires PlainName(ns1) && PlainName(id1) && PlainName(ns2) && PlainName(id2)
    ensures LockFileFor(lockPath, FilePath(destination, ns1, id1)) == LockFileFor(lockPath, FilePath(destination, ns2, id2))
        <==> ns1 == ns2 && id1 == id2
  {
    var f1, f2 := FilePath(destination, ns1, id1), FilePath(destination, ns2, id2);
    FilePathOfPlainNames(destination, ns1, id1);
    FilePathOfPlainNames(destination, ns2, id2);
    if LockFileFor(lockPath, f1) == LockFileFor(lockPath, f2) {
      LockFileForInjective(lockPath, f1, f2);
      SamePathSameNames(destination, ns1, id1, ns2, id2);
    }
  }

  /** Below a common directory, a path built from names without separators determines the names. */
  lemma SamePathSameNames(destination: string, ns1: string, id1: string, ns2: string, id2: string)
    requires '/' !in ns1 && '/' !in ns2
    requires destination + "/" + ns1 + "/" + id1 == destination + "/" + ns2 + "/" + id2
    ensures ns1 == ns2 && id1 == id2
  {
    var f1, f2 := destination + "/" + ns1 + "/" + id1, destination + "/" + ns2 + "/" + id2;
    assert f1[|destination| + 1..] == ns1 + "/" + id1;
    assert f2[|destination| + 1..] == ns2 + "/" + id2;
    SplitAtSeparator(ns1, id1, ns2, id2);
  }

  /**
   * Two different box files can share a lock: box `c` of namespace `a.b` and box `b.c`
   * of namespace `a` serialise against each other.
   */
  lemma DistinctFilesShareLock(lockPath: string, destination: string)
    requires destination != "" && destination[|destination| - 1] != '/'
    ensures FilePath(destination, "a.b", "c") != FilePath(destination, "a", "b.c")
    ensures LockFileFor(lockPath, FilePath(destination, "a.b", "c"))
         == LockFileFor(lockPath, FilePath(destination, "a", "b.c"))
  {
    var p1, p2 := FilePath(destination, "a.b", "c"), FilePath(destination, "a", "b.c");
    assert p1 == destination + "/a.b/c";
    assert p2 == destination + "/a/b.c";
    assert p1[|destination| + 2] != p2[|destination| + 2];
    FlattenAppend(destination, "/a.b/c");
    FlattenAppend(destination, "/a/b.c");
    assert Flatten("/a.b/c") == Flatten("/a/b.c");
  }
}
