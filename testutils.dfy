/**
 * The reference codec and tag helpers of tests/test_utils.py: reading and
 * writing SkySpark reference strings `p:<project>:r:<id>`, classifying the
 * `{"_kind": ...}` wrappers SkySpark uses for typed tag values, splitting
 * FlightDeck tags into markers and key-values, and finding entities by refName.
 */
module TestUtils {
  import opened Wrappers
  import opened PyValue
  import opened Strings

  /** The FlightDeck tag that stores the cross-system reference. */
  const HaystackRefTag := "haystackRef"

  // ---------------------------------------------------------------------------
  // Reference strings
  // ---------------------------------------------------------------------------

  /**
   * The string rule of `extract_ref_id`: a string of the form
   * `p:<project>:r:<id>` gives `<id>`, and any other string comes back unchanged.
   */
  function DecodeRef(s: string): (id: string)
    ensures ':' !in s ==> id == s
  {
    var parts := Split(s, ':');
    if ':' !in s then
      SplitNoSep(s, ':');
      s
    else if |parts| == 4 && parts[0] == "p" && parts[2] == "r" then parts[3]
    else s
  }

  /**
   * `extract_ref_id`: a string is decoded, a dict is decoded as its `val`
   * (default `""`), and anything that is then not a string gives `""`.
   */
  function ExtractRefId(refValue: Json): (id: string)
    ensures !refValue.JStr? && !refValue.JObj? ==> id == ""
    ensures refValue.JObj? && !("val" in refValue.fields && refValue.fields["val"].JStr?) ==> id == ""
    ensures refValue.JObj? && "val" in refValue.fields && refValue.fields["val"].JStr? ==>
              id == DecodeRef(refValue.fields["val"].s)
    ensures refValue.JStr? ==> id == DecodeRef(refValue.s)
  {
    var v := if refValue.JObj? then Get(refValue.fields, "val", JStr("")) else refValue;
    if !v.JStr? then "" else DecodeRef(v.s)
  }

  /** A dict holding a string `val` decodes exactly as that string does. */
  lemma ExtractRefIdOfWrapper(fields: Dict, s: string)
    requires "val" in fields && fields["val"] == JStr(s)
    ensures ExtractRefId(JObj(fields)) == ExtractRefId(JStr(s))
  {
  }

  /** `build_ref_string`: with colon-free fields the result splits into exactly `p`, project, `r`, id. */
  function BuildRefString(project: string, entityId: string): (r: string)
    ensures ':' !in project && ':' !in entityId ==> Split(r, ':') == ["p", project, "r", entityId]
  {
    var r := "p:" + project + ":r:" + entityId;
    if ':' !in project && ':' !in entityId then
      assert r == "p" + [':'] + (project + [':'] + ("r" + [':'] + entityId));
      SplitAtSep("p", ':', project + [':'] + ("r" + [':'] + entityId));
      SplitAtSep(project, ':', "r" + [':'] + entityId);
      SplitAtSep("r", ':', entityId);
      SplitNoSep(entityId, ':');
      r
    else r
  }

  /** Decoding an encoded reference gives back the id, whether it is a plain string or a `ref` wrapper. */
  lemma RefRoundTrip(project: string, entityId: string)
    requires ':' !in project && ':' !in entityId
    ensures ExtractRefId(JStr(BuildRefString(project, entityId))) == entityId
    ensures ExtractRefId(JObj(map["_kind" := JStr("ref"), "val" := JStr(BuildRefString(project, entityId))])) == entityId
  {
    var r := BuildRefString(project, entityId);
    assert r[1] == ':';
  }

  /**
   * Every string decodes either to itself or, when it is `p:<project>:r:<id>`
   * with colon-free fields, to `<id>`: decoding never invents anything else.
   */
  lemma ExtractRefIdCases(s: string)
    ensures ExtractRefId(JStr(s)) == s
         || exists project: string, entityId: string ::
              ':' !in project && ':' !in entityId && s == BuildRefString(project, entityId)
              && ExtractRefId(JStr(s)) == entityId
  {
    var parts := Split(s, ':');
    if ':' in s && |parts| == 4 && parts[0] == "p" && parts[2] == "r" {
      SplitJoin(s, ':');
      SplitPartsSepFree(s, ':');
      assert parts[1..][1..] == parts[2..] && parts[2..][1..] == parts[3..];
      assert Join(parts[3..], ':') == parts[3];
      assert Join(parts[2..], ':') == parts[2] + [':'] + parts[3];
      assert Join(parts[1..], ':') == parts[1] + [':'] + (parts[2] + [':'] + parts[3]);
      assert s == BuildRefString(parts[1], parts[3]);
      assert ':' !in parts[1] && ':' !in parts[3];
    }
  }

  /** `create_haystack_ref_tag`: the tag value is the full SkySpark id as it is, so a reference survives storage unchanged. */
  function CreateHaystackRefTag(skysparkId: string): (tag: string)
    ensures tag == skysparkId
  {
    skysparkId
  }

  /** A stored haystackRef tag decodes to the id it was built from. */
  lemma HaystackRefTagRoundTrip(project: string, entityId: string)
    requires ':' !in project && ':' !in entityId
    ensures ExtractRefId(JStr(CreateHaystackRefTag(BuildRefString(project, entityId)))) == entityId
  {
    RefRoundTrip(project, entityId);
  }

  // ---------------------------------------------------------------------------
  // Typed tag values
  // ---------------------------------------------------------------------------

  /** The typed view of a SkySpark tag value: the `{"_kind": ...}` wrappers, and everything else. */
  datatype TagValue =
    | Marker
    | Number(val: Json)
    | Str(val: Json)
    | Bool(val: Json)
    | Date(val: Json)
    | Time(val: Json)
    | DateTime(val: Json)
    | Ref(val: Json)
    | Other

  function KindName(t: TagValue): string
    requires !t.Other?
  {
    match t
    case Marker => "marker"
    case Number(_) => "number"
    case Str(_) => "str"
    case Bool(_) => "bool"
    case Date(_) => "date"
    case Time(_) => "time"
    case DateTime(_) => "datetime"
    case Ref(_) => "ref"
  }

  /** Reads a raw value as a typed value: a dict whose `_kind` is a known kind, or Other. */
  function Classify(j: Json): TagValue {
    if j.JObj? && "_kind" in j.fields && j.fields["_kind"].JStr? then
      var kind := j.fields["_kind"].s;
      var v := Get(j.fields, "val", JNull);
      if kind == "marker" then Marker
      else if kind == "number" then Number(v)
      else if kind == "str" then Str(v)
      else if kind == "bool" then Bool(v)
      else if kind == "date" then Date(v)
      else if kind == "time" then Time(v)
      else if kind == "datetime" then DateTime(v)
      else if kind == "ref" then Ref(v)
      else Other
    else Other
  }

  /** Writes a typed value as SkySpark's wrapper dict. */
  function Encode(t: TagValue): Json
    requires !t.Other?
  {
    if t.Marker? then JObj(map["_kind" := JStr("marker")])
    else JObj(map["_kind" := JStr(KindName(t)), "val" := t.val])
  }

  /** Encoding then classifying is the identity on typed values. */
  lemma ClassifyEncode(t: TagValue)
    requires !t.Other?
    ensures Classify(Encode(t)) == t
  {
  }

  /** `has_marker_tag`: true exactly when the tag is present and its value is a marker wrapper. */
  function HasMarkerTag(entity: Dict, tag: string): (r: bool)
    ensures r <==> tag in entity && Classify(entity[tag]) == Marker
  {
    var tagValue := Get(entity, tag, JNull);
    if tagValue.JNull? then false
    else if tagValue.JObj? && Get(tagValue.fields, "_kind", JNull) == JStr("marker") then true
    else false
  }

  /**
   * `get_kv_tag`: None for a missing (or None) tag, the payload of a
   * number/str/bool/date/time/datetime/ref wrapper, and any other value as it is.
   */
  function GetKvTag(entity: Dict, tag: string): (r: Json)
    ensures tag !in entity ==> r == JNull
    ensures tag in entity && Classify(entity[tag]) !in {Marker, Other} ==> r == Classify(entity[tag]).val
    ensures tag in entity && Classify(entity[tag]) in {Marker, Other} ==> r == entity[tag]
  {
    var tagValue := Get(entity, tag, JNull);
    if tagValue.JNull? then JNull
    else if tagValue.JObj? then
      var kind := Get(tagValue.fields, "_kind", JNull);
      if kind in [JStr("number"), JStr("str"), JStr("bool"), JStr("date"), JStr("time"), JStr("datetime")] then
        Get(tagValue.fields, "val", JNull)
      else if kind == JStr("ref") then Get(tagValue.fields, "val", JNull)
      else tagValue
    else tagValue
  }

  /** A value written through Encode is read back by GetKvTag as its payload; a marker is never a key-value payload. */
  lemma GetKvTagOfEncoded(tag: string, t: TagValue)
    requires !t.Other?
    ensures !t.Marker? ==> GetKvTag(map[tag := Encode(t)], tag) == t.val
    ensures t.Marker? <==> HasMarkerTag(map[tag := Encode(t)], tag)
  {
    ClassifyEncode(t);
  }

  // ---------------------------------------------------------------------------
  // FlightDeck tag normalisation
  // ---------------------------------------------------------------------------

  /** FlightDeck tags as a Python dict: an ordered list of entries with distinct keys. */
  type Entries = seq<(string, Json)>

  predicate DistinctKeys(tags: Entries) {
    forall i, j :: 0 <= i < j < |tags| ==> tags[i].0 != tags[j].0
  }

  /** A FlightDeck tag whose value is None or `""` is a marker. */
  predicate IsMarkerValue(v: Json) {
    v == JNull || v == JStr("")
  }

  /** The keys that normalisation lists as markers, in input order. */
  function MarkerKeys(tags: Entries): seq<string>
    decreases |tags|
  {
    if tags == [] then []
    else
      var init := MarkerKeys(tags[..|tags| - 1]);
      var (k, v) := tags[|tags| - 1];
      if k != HaystackRefTag && IsMarkerValue(v) then init + [k] else init
  }

  /** The key-value tags that normalisation keeps. */
  function KvEntries(tags: Entries): Dict
    decreases |tags|
  {
    if tags == [] then map[]
    else
      var init := KvEntries(tags[..|tags| - 1]);
      var (k, v) := tags[|tags| - 1];
      if k != HaystackRefTag && !IsMarkerValue(v) then init[k := v] else init
  }

  /** `normalize_tags_from_flightdeck` */
  method NormalizeTagsFromFlightdeck(tags: Entries) returns (markerTags: seq<string>, kvTags: Dict)
    ensures markerTags == MarkerKeys(tags)
    ensures kvTags == KvEntries(tags)
  {
    markerTags, kvTags := [], map[];
    for i := 0 to |tags|
      invariant markerTags == MarkerKeys(tags[..i])
      invariant kvTags == KvEntries(tags[..i])
    {
      assert tags[..i + 1][..i] == tags[..i];
      var (key, value) := tags[i];
      if key == HaystackRefTag {
        continue;
      }
      if value == JNull || value == JStr("") {
        markerTags := markerTags + [key];
      } else {
        kvTags := kvTags[key := value];
      }
    }
    assert tags[..|tags|] == tags;
  }

  /** haystackRef never reaches either output. */
  lemma {:induction false} NormalizeDropsHaystackRef(tags: Entries)
    ensures HaystackRefTag !in MarkerKeys(tags)
    ensures HaystackRefTag !in KvEntries(tags)
    decreases |tags|
  {
    if tags != [] {
      NormalizeDropsHaystackRef(tags[..|tags| - 1]);
    }
  }

  /** Normalisation only outputs keys of the input, and the key-values keep their values. */
  lemma {:induction false} NormalizeFromInput(tags: Entries)
    ensures forall k :: k in MarkerKeys(tags) ==> exists i :: 0 <= i < |tags| && tags[i].0 == k && IsMarkerValue(tags[i].1)
    ensures forall k :: k in KvEntries(tags) ==> exists i :: 0 <= i < |tags| && tags[i] == (k, KvEntries(tags)[k]) && !IsMarkerValue(tags[i].1)
    decreases |tags|
  {
    if tags != [] {
      var init := tags[..|tags| - 1];
      NormalizeFromInput(init);
      forall k | k in KvEntries(init)
        ensures exists i :: 0 <= i < |init| && init[i] == (k, KvEntries(init)[k])
        ensures exists i :: 0 <= i < |tags| && tags[i] == (k, KvEntries(init)[k]) && !IsMarkerValue(tags[i].1)
      {
        var i :| 0 <= i < |init| && init[i] == (k, KvEntries(init)[k]) && !IsMarkerValue(init[i].1);
        assert tags[i] == init[i];
      }
      forall k | k in MarkerKeys(init)
        ensures exists i :: 0 <= i < |tags| && tags[i].0 == k && IsMarkerValue(tags[i].1)
      {
        var i :| 0 <= i < |init| && init[i].0 == k && IsMarkerValue(init[i].1);
        assert tags[i] == init[i];
      }
    }
  }

  /** A key that no entry carries is in neither output. */
  lemma {:induction false} NormalizeAbsentKey(tags: Entries, k: string)
    requires forall i :: 0 <= i < |tags| ==> tags[i].0 != k
    ensures k !in MarkerKeys(tags) && k !in KvEntries(tags)
    decreases |tags|
  {
    if tags != [] {
      var init := tags[..|tags| - 1];
      assert forall i :: 0 <= i < |init| ==> init[i] == tags[i];
      NormalizeAbsentKey(init, k);
    }
  }

  /**
   * Every key other than haystackRef goes to exactly one side: to the markers
   * iff its value is None or `""`, otherwise to the key-values with its value kept.
   */
  lemma {:induction false} NormalizePartition(tags: Entries, i: nat)
    requires DistinctKeys(tags)
    requires i < |tags| && tags[i].0 != HaystackRefTag
    ensures tags[i].0 in MarkerKeys(tags) <==> IsMarkerValue(tags[i].1)
    ensures tags[i].0 in KvEntries(tags) <==> !IsMarkerValue(tags[i].1)
    ensures tags[i].0 in KvEntries(tags) ==> KvEntries(tags)[tags[i].0] == tags[i].1
    decreases |tags|
  {
    var init := tags[..|tags| - 1];
    var k := tags[i].0;
    if i < |tags| - 1 {
      assert init[i] == tags[i];
      NormalizePartition(init, i);
      // the last entry has a different key, so it does not touch k
      assert tags[|tags| - 1].0 != k;
    } else {
      assert forall j :: 0 <= j < |init| ==> init[j] == tags[j];
      NormalizeAbsentKey(init, k);
    }
  }

  /** The marker list of a dict has no duplicates. */
  lemma {:induction false} MarkerKeysDistinct(tags: Entries)
    requires DistinctKeys(tags)
    ensures forall i, j :: 0 <= i < j < |MarkerKeys(tags)| ==> MarkerKeys(tags)[i] != MarkerKeys(tags)[j]
    decreases |tags|
  {
    if tags != [] {
      var init := tags[..|tags| - 1];
      assert forall j :: 0 <= j < |init| ==> init[j] == tags[j];
      MarkerKeysDistinct(init);
      NormalizeAbsentKey(init, tags[|tags| - 1].0);
    }
  }

  /** Markers keep input order: normalising a concatenation concatenates the marker lists. */
  lemma {:induction false} MarkerKeysAppend(a: Entries, b: Entries)
    ensures MarkerKeys(a + b) == MarkerKeys(a) + MarkerKeys(b)
    decreases |b|
  {
    if b != [] {
      var b' := b[..|b| - 1];
      assert (a + b)[..|a + b| - 1] == a + b';
      MarkerKeysAppend(a, b');
    } else {
      assert a + b == a;
    }
  }

  // ---------------------------------------------------------------------------
  // Finding entities by refName
  // ---------------------------------------------------------------------------

  /** `is_duplicate`: the entity's refName is exactly the string given; without a refName it never is. */
  predicate IsDuplicate(entity: Dict, refName: string)
    ensures IsDuplicate(entity, refName) ==> "refName" in entity
    ensures "refName" in entity ==> (IsDuplicate(entity, refName) <==> entity["refName"] == JStr(refName))
  {
    Get(entity, "refName", JNull) == JStr(refName)
  }

  /** `find_by_ref_name`: the first entity whose refName matches, or None when no entity's does. */
  method FindByRefName(entities: seq<Dict>, refName: string) returns (found: Option<Dict>)
    ensures found.None? <==> forall i :: 0 <= i < |entities| ==> !IsDuplicate(entities[i], refName)
    ensures found.Some? ==> exists i :: 0 <= i < |entities| && entities[i] == found.value
                                        && IsDuplicate(entities[i], refName)
                                        && forall j :: 0 <= j < i ==> !IsDuplicate(entities[j], refName)
  {
    for i := 0 to |entities|
      invariant forall j :: 0 <= j < i ==> !IsDuplicate(entities[j], refName)
    {
      if Get(entities[i], "refName", JNull) == JStr(refName) {
        return Some(entities[i]);
      }
    }
    return None;
  }
}
