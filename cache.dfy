/**
 * The pure semantics of the metadata cache: the `.*query.*` search filter and the
 * remove-while-iterating loop of `delete_metadata_from_cache`.
 */
module Cache {
  import opened Values
  import opened Boxes

  /** The characters that are special in a Python regular expression outside a class. */
  const RegexMeta: set<char> := {'.', '^', '$', '*', '+', '?', '{', '}', '[', ']', '\\', '|', '(', ')'}

  /** A query that the regular expression engine reads character for character. */
  predicate IsLiteral(q: string)
  {
    forall i :: 0 <= i < |q| ==> q[i] !in RegexMeta
  }

  /**
   * `re.match(".*" + q + ".*", v)` for a literal `q`: the match starts at the beginning of
   * `v`, `.` does not cross a newline, so `q` must occur after a newline-free prefix.
   */
  predicate DotStarMatch(q: string, v: string)
    decreases |v|
  {
    IsPrefix(q, v) || (|v| > 0 && v[0] != '\n' && DotStarMatch(q, v[1..]))
  }

  /** The reference reading of the match: an occurrence of `q` at a position `p` with no newline before it. */
  ghost predicate OccursBeforeNewline(q: string, v: string)
  {
    exists p :: 0 <= p <= |v| && IsPrefix(q, v[p..]) && '\n' !in v[..p]
  }

  /** Past a first character that is not a newline, the occurrences are those of the tail, shifted by one. */
  lemma OccursPastFirst(q: string, v: string)
    requires |v| > 0 && v[0] != '\n' && !IsPrefix(q, v)
    ensures OccursBeforeNewline(q, v) <==> OccursBeforeNewline(q, v[1..])
  {
    if OccursBeforeNewline(q, v[1..]) {
      var p :| 0 <= p <= |v[1..]| && IsPrefix(q, v[1..][p..]) && '\n' !in v[1..][..p];
      assert v[p + 1..] == v[1..][p..];
      assert v[..p + 1] == [v[0]] + v[1..][..p];
    }
    if OccursBeforeNewline(q, v) {
      var p :| 0 <= p <= |v| && IsPrefix(q, v[p..]) && '\n' !in v[..p];
      assert p != 0 by { assert v[0..] == v; }
      assert v[1..][p - 1..] == v[p..];
      assert v[1..][..p - 1] == v[1..p];
      assert forall c :: c in v[1..p] ==> c in v[..p];
    }
  }

  /** With no occurrence at the start, a leading newline (or an empty value) leaves no occurrence at all. */
  lemma NoOccurrencePastNewline(q: string, v: string)
    requires !IsPrefix(q, v) && (|v| == 0 || v[0] == '\n')
    ensures !OccursBeforeNewline(q, v)
  {
    assert v[0..] == v;
    if |v| > 0 {
      assert forall p :: 0 < p <= |v| ==> v[..p][0] == '\n';
    }
  }

  lemma {:induction false} DotStarMatchIsOccurrence(q: string, v: string)
    ensures DotStarMatch(q, v) <==> OccursBeforeNewline(q, v)
    decreases |v|
  {
    if IsPrefix(q, v) {
      assert v[0..] == v && v[..0] == [];
    } else if |v| > 0 && v[0] != '\n' {
      DotStarMatchIsOccurrence(q, v[1..]);
      OccursPastFirst(q, v);
    } else {
      NoOccurrencePastNewline(q, v);
    }
  }

  /** On a value without newlines, the search match of a literal query is Python's `query in value`. */
  lemma LiteralMatchIsSubstring(q: string, v: string)
    requires '\n' !in v
    ensures DotStarMatch(q, v) <==> IsSubstring(q, v)
  {
    DotStarMatchIsOccurrence(q, v);
    if IsSubstring(q, v) {
      var p :| 0 <= p <= |v| - |q| && IsPrefix(q, v[p..]);
      assert forall c :: c in v[..p] ==> c in v;
    }
  }

  /** `metadata.get(filter_option, "")`. */
  function FieldText(rec: Record, field: string): (r: OptStr)
    ensures field !in rec ==> r == PyStr("")
  {
    if field in rec then rec[field] else PyStr("")
  }

  /** The record is kept by the search: its field is a string that the pattern matches. */
  predicate Selects(rec: Record, field: string, query: string)
  {
    FieldText(rec, field).PyStr? && DotStarMatch(query, FieldText(rec, field).s)
  }

  /** Some record holds `None` in the field, which `re.match` refuses with a TypeError. */
  predicate HasNoneField(recs: seq<Record>, field: string)
  {
    exists i :: 0 <= i < |recs| && FieldText(recs[i], field).PyNone?
  }

  /** The records the search keeps, in cache order. */
  function Filtered(recs: seq<Record>, field: string, query: string): (r: seq<Record>)
    ensures |r| <= |recs|
  {
    if recs == [] then []
    else
      var last := recs[|recs| - 1];
      Filtered(recs[..|recs| - 1], field, query) + (if Selects(last, field, query) then [last] else [])
  }

  /** What `search_metadata_by` returns for the records of one namespace, for a literal query. */
  function Search(recs: seq<Record>, field: string, query: string): (r: Result<seq<Record>>)
    requires IsLiteral(query)
    ensures r.Raise? <==> HasNoneField(recs, field)
    ensures r.Raise? ==> r.error == TypeError
  {
    if HasNoneField(recs, field) then Raise(TypeError) else Ok(Filtered(recs, field, query))
  }

  /** The filter keeps exactly the selected records: nothing else, and none of them is lost. */
  lemma {:induction false} FilteredMembers(recs: seq<Record>, field: string, query: string, x: Record)
    ensures x in Filtered(recs, field, query) <==> x in recs && Selects(x, field, query)
  {
    if recs != [] {
      var init := recs[..|recs| - 1];
      FilteredMembers(init, field, query, x);
      assert recs == init + [recs[|recs| - 1]];
    }
  }

  /** The filter distributes over concatenation, so the results keep the cache order. */
  lemma {:induction false} FilteredConcat(a: seq<Record>, b: seq<Record>, field: string, query: string)
    ensures Filtered(a + b, field, query) == Filtered(a, field, query) + Filtered(b, field, query)
    decreases |b|
  {
    if b == [] {
      assert a + b == a;
    } else {
      var init := b[..|b| - 1];
      FilteredConcat(a, init, field, query);
      assert (a + b)[..|a + b| - 1] == a + init;
    }
  }

  /** The empty query selects every record whose field holds a string. */
  lemma {:induction false} EmptyQueryKeepsAll(recs: seq<Record>, field: string)
    requires !HasNoneField(recs, field)
    ensures Filtered(recs, field, "") == recs
  {
    if recs != [] {
      var init, last := recs[..|recs| - 1], recs[|recs| - 1];
      assert !HasNoneField(init, field) by {
        assert forall i :: 0 <= i < |init| ==> init[i] == recs[i];
      }
      assert FieldText(last, field).PyStr?;
      assert IsPrefix("", FieldText(last, field).s);
      EmptyQueryKeepsAll(init, field);
      assert recs == init + [last];
    }
  }

  /**
   * The default `filter_option="id"` never finds a box: metadata records have no `id` key,
   * the field reads as `""`, and of the literal queries only the empty one matches `""`.
   */
  lemma SearchByIdFindsNothing(boxes: seq<Box>, query: string)
    requires query != "" && IsLiteral(query)
    ensures Search(seq(|boxes|, i requires 0 <= i < |boxes| => MetadataFromBox(boxes[i])), "id", query) == Ok([])
  {
    var recs := seq(|boxes|, i requires 0 <= i < |boxes| => MetadataFromBox(boxes[i]));
    forall x | x in recs
      ensures !Selects(x, "id", query)
    {
      assert FieldText(x, "id") == PyStr("");
    }
    if Filtered(recs, "id", query) != [] {
      FilteredMembers(recs, "id", query, Filtered(recs, "id", query)[0]);
    }
  }

  /** Searching by `owner` raises as soon as the namespace holds a box record: the owner is always None. */
  lemma SearchByOwnerRaises(recs: seq<Record>, b: Box, query: string)
    requires b.owner == PyNone && MetadataFromBox(b) in recs && IsLiteral(query)
    ensures Search(recs, "owner", query) == Raise(TypeError)
  {
    var i :| 0 <= i < |recs| && recs[i] == MetadataFromBox(b);
    assert FieldText(recs[i], "owner").PyNone?;
  }

  /**
   * Python's `needle in hay` where either side may be None: a None container is not
   * iterable, and a None needle is not a string; both raise TypeError.
   */
  function PyIn(needle: OptStr, hay: OptStr): (r: Result<bool>)
    ensures r.Ok? <==> needle.PyStr? && hay.PyStr?
    ensures r.Ok? ==> r.value == IsSubstring(needle.s, hay.s)
    ensures r.Raise? ==> r.error == TypeError
  {
    match (needle, hay)
    case (PyStr(n), PyStr(h)) => Ok(IsSubstring(n, h))
    case _ => Raise(TypeError)
  }

  /** `needle in rec[key]`: a missing key raises KeyError first. */
  function FieldIn(needle: OptStr, rec: Record, key: string): (r: Result<bool>)
    ensures key !in rec ==> r == Raise(KeyError)
    ensures key in rec ==> r == PyIn(needle, rec[key])
  {
    if key !in rec then Raise(KeyError) else PyIn(needle, rec[key])
  }

  /** `box_id in cache["box_id"] or name in cache["name"]`, short-circuited left to right. */
  function Matches(rec: Record, boxId: OptStr, name: OptStr): (r: Result<bool>)
    ensures FieldIn(boxId, rec, "box_id") == Ok(true) ==> r == Ok(true)
    ensures FieldIn(boxId, rec, "box_id").Raise? ==> r == FieldIn(boxId, rec, "box_id")
    ensures FieldIn(boxId, rec, "box_id") == Ok(false) ==> r == FieldIn(name, rec, "name")
  {
    match FieldIn(boxId, rec, "box_id")
    case Raise(e) => Raise(e)
    case Ok(hit) => if hit then Ok(true) else FieldIn(name, rec, "name")
  }

  /** The position of the first element equal to `x`. */
  function FirstIndex<T(==)>(s: seq<T>, x: T): (k: nat)
    requires x in s
    ensures k < |s| && s[k] == x
    ensures forall j :: 0 <= j < k ==> s[j] != x
  {
    if s[0] == x then 0 else 1 + FirstIndex(s[1..], x)
  }

  /** `list.remove(x)`: drops the first element equal to `x`, keeping the others in order. */
  function RemoveFirst<T(==)>(s: seq<T>, x: T): (r: seq<T>)
    requires x in s
    ensures |r| == |s| - 1
    ensures multiset(r) == multiset(s) - multiset{x}
  {
    assert s == [s[0]] + s[1..];
    if s[0] == x then s[1..] else [s[0]] + RemoveFirst(s[1..], x)
  }

  /** Before the first occurrence of `x` nothing moves; after it every element shifts down by one. */
  lemma {:induction false} RemoveFirstShifts<T>(s: seq<T>, x: T)
    requires x in s
    ensures forall i :: 0 <= i < FirstIndex(s, x) ==> RemoveFirst(s, x)[i] == s[i]
    ensures forall i :: FirstIndex(s, x) <= i < |s| - 1 ==> RemoveFirst(s, x)[i] == s[i + 1]
  {
    if s[0] != x {
      assert x in s[1..] by { assert s == [s[0]] + s[1..]; }
      RemoveFirstShifts(s[1..], x);
    }
  }

  /** The element removed is the first one equal to `x`; the others keep their order. */
  lemma RemoveFirstSplicesFirstIndex<T>(s: seq<T>, x: T)
    requires x in s
    ensures RemoveFirst(s, x) == s[..FirstIndex(s, x)] + s[FirstIndex(s, x) + 1..]
  {
    var k := FirstIndex(s, x);
    RemoveFirstShifts(s, x);
    var r, spliced := RemoveFirst(s, x), s[..k] + s[k + 1..];
    assert |r| == |spliced|;
    forall i | 0 <= i < |r| ensures r[i] == spliced[i] {
      if i < k { assert spliced[i] == s[..k][i]; } else { assert spliced[i] == s[k + 1..][i - k]; }
    }
  }

  /** The state the deletion loop leaves: the list as mutated so far, and the exception that stopped it. */
  datatype Scanned = Scanned(remaining: seq<Record>, error: Option<Exc>)

  /**
   * The `for cache in lst: if ...: lst.remove(cache)` loop from list index `i` on. Each
   * removal shifts the rest of the list one place left while the index still advances, so
   * the record after a removed one is never looked at; an exception stops the loop with
   * the removals made so far in place.
   */
  function Scan(lst: seq<Record>, i: nat, boxId: OptStr, name: OptStr): (r: Scanned)
    ensures |r.remaining| <= |lst|
    decreases |lst| - i
  {
    if i >= |lst| then Scanned(lst, None)
    else match Matches(lst[i], boxId, name)
      case Raise(e) => Scanned(lst, Some(e))
      case Ok(hit) =>
        if hit then Scan(RemoveFirst(lst, lst[i]), i + 1, boxId, name)
        else Scan(lst, i + 1, boxId, name)
  }

  /** The loop only removes records, and only records that match. */
  lemma {:induction false} ScanOnlyRemovesMatches(lst: seq<Record>, i: nat, boxId: OptStr, name: OptStr)
    ensures multiset(Scan(lst, i, boxId, name).remaining) <= multiset(lst)
    ensures forall x :: multiset(Scan(lst, i, boxId, name).remaining)[x] < multiset(lst)[x] ==>
      Matches(x, boxId, name) == Ok(true)
    decreases |lst| - i
  {
    if i < |lst| {
      var m := Matches(lst[i], boxId, name);
      if m.Ok? && m.value {
        var next := RemoveFirst(lst, lst[i]);
        ScanOnlyRemovesMatches(next, i + 1, boxId, name);
        RemovingMatchOnlyRemovesMatches(Scan(next, i + 1, boxId, name).remaining, lst, i, boxId, name);
      } else if m.Ok? {
        ScanOnlyRemovesMatches(lst, i + 1, boxId, name);
      }
    }
  }

  /** Removing a matching record from `lst`, then more matching records, removes only matching records. */
  lemma RemovingMatchOnlyRemovesMatches(r: seq<Record>, lst: seq<Record>, k: nat, boxId: OptStr, name: OptStr)
    requires k < |lst| && Matches(lst[k], boxId, name) == Ok(true)
    requires multiset(r) <= multiset(RemoveFirst(lst, lst[k]))
    requires forall x :: multiset(r)[x] < multiset(RemoveFirst(lst, lst[k]))[x] ==> Matches(x, boxId, name) == Ok(true)
    ensures multiset(r) <= multiset(lst)
    ensures forall x :: multiset(r)[x] < multiset(lst)[x] ==> Matches(x, boxId, name) == Ok(true)
  {
    var next := RemoveFirst(lst, lst[k]);
    assert forall x :: x != lst[k] ==> multiset(next)[x] == multiset(lst)[x];
  }

  /**
   * When every record matches, the loop still removes only every other one: of the `n`
   * records from index `i` on, `(n + 1) / 2` go and the rest stay.
   */
  lemma {:induction false} ScanAllMatchingRemovesHalf(lst: seq<Record>, i: nat, boxId: OptStr, name: OptStr)
    requires forall x :: x in lst ==> Matches(x, boxId, name) == Ok(true)
    ensures Scan(lst, i, boxId, name).error == None
    ensures |Scan(lst, i, boxId, name).remaining| == |lst| - (if i >= |lst| then 0 else (|lst| - i + 1) / 2)
    decreases |lst| - i
  {
    if i < |lst| {
      var next := RemoveFirst(lst, lst[i]);
      forall x | x in next
        ensures Matches(x, boxId, name) == Ok(true)
      {
        assert x in multiset(next);
      }
      ScanAllMatchingRemovesHalf(next, i + 1, boxId, name);
    }
  }

  /** A metadata record with the given id and no name. */
  function Meta(boxId: string): Record
  {
    map["box_id" := PyStr(boxId), "name" := PyNone, "owner" := PyNone, "created_at" := PyStr("t")]
  }

  /**
   * Deleting id `ab` from `[ab, abc]`: both records contain `ab`, the first is removed,
   * and the second, shifted into the visited slot, survives.
   */
  lemma ScanSkipsNextRecord()
    ensures Scan([Meta("ab"), Meta("abc")], 0, PyStr("ab"), PyNone) == Scanned([Meta("abc")], None)
  {
    assert IsPrefix("ab", "ab"[0..]);
    assert IsPrefix("ab", "abc"[0..]);
    assert Matches(Meta("ab"), PyStr("ab"), PyNone) == Ok(true);
    assert Meta("ab") != Meta("abc") by {
      assert Meta("ab")["box_id"] != Meta("abc")["box_id"];
    }
    assert RemoveFirst([Meta("ab"), Meta("abc")], Meta("ab")) == [Meta("abc")];
  }

  /**
   * With no name given, the first visited record that does not contain the id raises
   * TypeError (`None in str`), and the loop stops there.
   */
  lemma NoNameRaisesOnFirstMiss(lst: seq<Record>, i: nat, boxId: string)
    requires i < |lst| && "box_id" in lst[i] && "name" in lst[i]
    requires lst[i]["box_id"].PyStr? && !IsSubstring(boxId, lst[i]["box_id"].s)
    ensures Scan(lst, i, PyStr(boxId), PyNone) == Scanned(lst, Some(TypeError))
  {
  }

  /**
   * The record of the deleted box can survive the deletion: deleting `b2` from `[a1, b2]`
   * raises on `a1`, which is visited first, and leaves both records.
   */
  lemma StaleRecordAfterDelete()
    ensures Scan([Meta("a1"), Meta("b2")], 0, PyStr("b2"), PyNone) == Scanned([Meta("a1"), Meta("b2")], Some(TypeError))
  {
    assert "a1"[0..] == "a1" && "a1"[..2][0] != "b2"[0];
    NoNameRaisesOnFirstMiss([Meta("a1"), Meta("b2")], 0, "b2");
  }
}
