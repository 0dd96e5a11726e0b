/** The stored unit (`Box`), its dictionary projections and the PUT/PATCH update rule. */
module Boxes {
  import opened Values

  /** 32 lower-case hexadecimal digits: the shape of `uuid4().hex`. */
  predicate IsHexToken(s: string)
  {
    |s| == 32 && forall i :: 0 <= i < |s| ==> s[i] in "0123456789abcdef"
  }

  /** A token minted by the random id generator, passed in by the caller. */
  type UuidHex = s: string | IsHexToken(s) witness "00000000000000000000000000000000"

  datatype Box = Box(
    data: Value,
    namespace: OptStr,
    name: OptStr,
    boxId: string,
    createdAt: string,
    owner: OptStr)

  /** A metadata record of the cache: a dictionary whose values are `None` or `str`. */
  type Record = map<string, OptStr>

  /** `Box(data, namespace, name)`; the uuid token and the timestamp `now` come from the caller. */
  function NewBox(data: Value, namespace: OptStr, name: OptStr, token: UuidHex, now: string): (b: Box)
    ensures b.data == data && b.namespace == namespace && b.name == name
    ensures IsHexToken(b.boxId) && b.createdAt == now
    ensures b.owner == PyNone
  {
    Box(data, namespace, name, token, now, PyNone)
  }

  /** `Box.to_dict`. */
  function ToDict(b: Box): (d: Dict)
    ensures d.Keys == {"data", "namespace", "owner", "created_at", "id", "name"}
    ensures d["id"] == JStr(b.boxId) && d["created_at"] == JStr(b.createdAt)
    ensures d["data"] == b.data
    ensures d["namespace"] == AsValue(b.namespace) && d["name"] == AsValue(b.name) && d["owner"] == AsValue(b.owner)
  {
    map["data" := b.data,
        "namespace" := AsValue(b.namespace),
        "owner" := AsValue(b.owner),
        "created_at" := JStr(b.createdAt),
        "id" := JStr(b.boxId),
        "name" := AsValue(b.name)]
  }

  /** `raw.get(key)` for a key that must hold `None` or a `str`; `None` for any other value. */
  function GetOptStr(raw: Dict, key: string): (r: Option<OptStr>)
    ensures key !in raw ==> r == Some(PyNone)
    ensures key in raw ==> (r.Some? <==> raw[key].JNull? || raw[key].JStr?)
    ensures r.Some? && key in raw ==> AsValue(r.value) == raw[key]
  {
    if key !in raw then Some(PyNone)
    else match raw[key]
      case JNull => Some(PyNone)
      case JStr(s) => Some(PyStr(s))
      case _ => None
  }

  /**
   * `Box.from_json` on an already parsed document: `data`, `namespace` and `name` are read
   * with `get` (a missing key reads as None); a fresh id and timestamp are minted.
   */
  function FromJson(raw: Dict, token: UuidHex, now: string): (r: Option<Box>)
    ensures r.Some? <==> GetOptStr(raw, "namespace").Some? && GetOptStr(raw, "name").Some?
    ensures r.Some? ==> r.value.data == (if "data" in raw then raw["data"] else JNull)
    ensures r.Some? ==> Some(r.value.namespace) == GetOptStr(raw, "namespace")
    ensures r.Some? ==> Some(r.value.name) == GetOptStr(raw, "name")
    ensures r.Some? ==> r.value.boxId == token && r.value.createdAt == now && r.value.owner == PyNone
  {
    match (GetOptStr(raw, "namespace"), GetOptStr(raw, "name"))
    case (Some(ns), Some(nm)) =>
      Some(NewBox(if "data" in raw then raw["data"] else JNull, ns, nm, token, now))
    case _ => None
  }

  /** `metadata_from_box`. */
  function MetadataFromBox(b: Box): (m: Record)
    ensures m.Keys == {"box_id", "name", "owner", "created_at"}
  {
    map["box_id" := PyStr(b.boxId),
        "name" := b.name,
        "owner" := b.owner,
        "created_at" := PyStr(b.createdAt)]
  }

  /**
   * The metadata record is the dictionary of the box without `data` and `namespace`,
   * with `id` renamed to `box_id`.
   */
  lemma MetadataIsProjectionOfDict(b: Box)
    ensures "data" !in MetadataFromBox(b) && "namespace" !in MetadataFromBox(b)
    ensures forall k :: k in MetadataFromBox(b) ==>
      AsValue(MetadataFromBox(b)[k]) == ToDict(b)[if k == "box_id" then "id" else k]
  {
  }

  /**
   * Turning a box into a document and back keeps its data, namespace and name, but the
   * result is a new box: id and timestamp are fresh and the owner is reset.
   */
  lemma FromJsonOfToDict(b: Box, token: UuidHex, now: string)
    ensures FromJson(ToDict(b), token, now) == Some(Box(b.data, b.namespace, b.name, token, now, PyNone))
  {
    var d := ToDict(b);
    assert GetOptStr(d, "namespace") == Some(b.namespace);
    assert GetOptStr(d, "name") == Some(b.name);
  }

  /** The round trip is the identity exactly on boxes that already carry that id, timestamp and no owner. */
  lemma FromJsonOfToDictIdentity(b: Box, token: UuidHex, now: string)
    ensures FromJson(ToDict(b), token, now) == Some(b)
        <==> b.boxId == token && b.createdAt == now && b.owner == PyNone
  {
    FromJsonOfToDict(b, token, now);
  }

  /** A document without any of the keys gives a box of Nones. */
  lemma FromJsonOfEmpty(token: UuidHex, now: string)
    ensures FromJson(map[], token, now) == Some(Box(JNull, PyNone, PyNone, token, now, PyNone))
  {
  }

  /**
   * `box.data.update(patch)`: the attribute lookup fails unless the data is a dict;
   * the update then merges shallowly, keys of `patch` winning.
   */
  function Merge(current: Value, patch: Value): (r: Result<Value>)
    ensures !current.JDict? ==> r == Raise(AttributeError)
    ensures current.JDict? && patch.JDict? ==> r.Ok?
    ensures r.Ok? ==> current.JDict? && r.value.JDict? && current.fields.Keys <= r.value.fields.Keys
    ensures r.Ok? && patch.JDict? ==> r.value.fields.Keys == current.fields.Keys + patch.fields.Keys
    ensures r.Ok? && patch.JDict? ==> forall k :: k in patch.fields ==> r.value.fields[k] == patch.fields[k]
    ensures r.Ok? ==> forall k :: k in current.fields && (!patch.JDict? || k !in patch.fields) ==>
      r.value.fields[k] == current.fields[k]
  {
    if !current.JDict? then Raise(AttributeError)
    else match patch
      case JDict(fields) => Ok(JDict(current.fields + fields))
      case JStr(s) => if s == "" then Ok(current) else Raise(ValueError)
      case JList(items) => if items == [] then Ok(current) else Raise(ValueError)
      case _ => Raise(TypeError)
  }

  /** The update rule of `event_update`: PUT replaces, PATCH merges, any other method keeps the data. */
  function UpdatedData(verb: string, current: Value, patch: Value): (r: Result<Value>)
    ensures verb == "PUT" ==> r == Ok(patch)
    ensures verb == "PATCH" && current.JDict? && patch.JDict? ==> r == Ok(JDict(current.fields + patch.fields))
    ensures verb == "PATCH" && !current.JDict? ==> r == Raise(AttributeError)
    ensures verb != "PUT" && verb != "PATCH" ==> r == Ok(current)
  {
    if verb == "PUT" then Ok(patch)
    else if verb == "PATCH" then Merge(current, patch)
    else Ok(current)
  }

  /** PUT discards the current data; PATCH keeps every key the update does not mention. */
  lemma PutReplacesPatchMerges(current: map<string, Value>, patch: map<string, Value>)
    ensures UpdatedData("PUT", JDict(current), JDict(patch)) == Ok(JDict(patch))
    ensures UpdatedData("PATCH", JDict(current), JDict(patch)) == Ok(JDict(current + patch))
    ensures forall k :: k in current && k !in patch ==> UpdatedData("PATCH", JDict(current), JDict(patch)).value.fields[k] == current[k]
  {
  }

  /** The worked example: `{"a":1,"b":2}` updated by `{"b":3}`. */
  lemma UpdateExample()
    ensures UpdatedData("PATCH", JDict(map["a" := JInt(1), "b" := JInt(2)]), JDict(map["b" := JInt(3)]))
         == Ok(JDict(map["a" := JInt(1), "b" := JInt(3)]))
    ensures UpdatedData("PUT", JDict(map["a" := JInt(1), "b" := JInt(2)]), JDict(map["b" := JInt(3)]))
         == Ok(JDict(map["b" := JInt(3)]))
  {
    assert map["a" := JInt(1), "b" := JInt(2)] + map["b" := JInt(3)] == map["a" := JInt(1), "b" := JInt(3)];
  }

  /** Applying the same PATCH twice is the same as applying it once. */
  lemma PatchIdempotent(current: Value, patch: Value)
    requires UpdatedData("PATCH", current, patch).Ok?
    ensures UpdatedData("PATCH", UpdatedData("PATCH", current, patch).value, patch) == UpdatedData("PATCH", current, patch)
  {
    if patch.JDict? {
      assert current.fields + patch.fields + patch.fields == current.fields + patch.fields;
    }
  }
}
