/**
 * The point reconciliation kernel of src/ace_skyspark_cli/sync.py. For each
 * FlightDeck point it decides whether SkySpark already holds it (its
 * `haystackRef` key-value tag names a SkySpark point) and prepares an update,
 * or prepares a create; the prepared points are then sent to SkySpark in
 * fixed-size batches. The SkySpark client is an oracle: the points it returns
 * from `read_points`, and pure functions standing for `create_points` and
 * `update_points`.
 */
module Sync {
  import opened Wrappers
  import opened PyValue
  import opened Strings

  /** `PointSyncService.HAYSTACK_REF_TAG` */
  const HaystackRefTag := "haystackRef"

  // ---------------------------------------------------------------------------
  // SyncResult
  // ---------------------------------------------------------------------------

  /** The counters and error list of one synchronisation run, updated in place. */
  class SyncResult {
    var sitesCreated: int
    var sitesUpdated: int
    var sitesSkipped: int
    var equipmentCreated: int
    var equipmentUpdated: int
    var equipmentSkipped: int
    var pointsCreated: int
    var pointsUpdated: int
    var pointsSkipped: int
    var errors: seq<string>

    /** The nine counters, sites then equipment then points, each as created, updated, skipped. */
    function Counters(): (c: seq<int>)
      reads this
      ensures |c| == 9
    {
      [sitesCreated, sitesUpdated, sitesSkipped,
       equipmentCreated, equipmentUpdated, equipmentSkipped,
       pointsCreated, pointsUpdated, pointsSkipped]
    }

    /** The site and equipment counters are as they were in the old state. */
    twostate predicate SiteAndEquipmentUnchanged()
      reads this
    {
      && sitesCreated == old(sitesCreated) && sitesUpdated == old(sitesUpdated) && sitesSkipped == old(sitesSkipped)
      && equipmentCreated == old(equipmentCreated) && equipmentUpdated == old(equipmentUpdated)
      && equipmentSkipped == old(equipmentSkipped)
    }

    /** A new result has every counter at zero and no errors. */
    constructor ()
      ensures Counters() == [0, 0, 0, 0, 0, 0, 0, 0, 0]
      ensures errors == []
    {
      sitesCreated, sitesUpdated, sitesSkipped := 0, 0, 0;
      equipmentCreated, equipmentUpdated, equipmentSkipped := 0, 0, 0;
      pointsCreated, pointsUpdated, pointsSkipped := 0, 0, 0;
      errors := [];
    }

    /** `add_error`: appends exactly one message and changes nothing else. */
    method AddError(error: string)
      modifies this`errors
      ensures errors == old(errors) + [error]
    {
      errors := errors + [error];
    }

    /** `to_dict`: each entity type's three counters as a nested dict, and the errors in order. */
    function ToDict(): (d: Dict)
      reads this
      ensures d.Keys == {"sites", "equipment", "points", "errors"}
      ensures d["sites"] == Tally(Counters()[0], Counters()[1], Counters()[2])
      ensures d["equipment"] == Tally(Counters()[3], Counters()[4], Counters()[5])
      ensures d["points"] == Tally(Counters()[6], Counters()[7], Counters()[8])
      ensures d["errors"].JList? && |d["errors"].items| == |errors|
      ensures forall i :: 0 <= i < |errors| ==> d["errors"].items[i] == JStr(errors[i])
    {
      map[
        "sites" := Tally(sitesCreated, sitesUpdated, sitesSkipped),
        "equipment" := Tally(equipmentCreated, equipmentUpdated, equipmentSkipped),
        "points" := Tally(pointsCreated, pointsUpdated, pointsSkipped),
        "errors" := JList(seq(|errors|, i requires 0 <= i < |errors| reads this => JStr(errors[i])))
      ]
    }
  }

  /** `{"created": c, "updated": u, "skipped": s}` */
  function Tally(created: int, updated: int, skipped: int): Json {
    JObj(map["created" := JNum(created), "updated" := JNum(updated), "skipped" := JNum(skipped)])
  }

  /** Distinct counters give distinct tallies. */
  lemma TallyInjective(c: int, u: int, k: int, c': int, u': int, k': int)
    ensures Tally(c, u, k) == Tally(c', u', k') ==> c == c' && u == u' && k == k'
  {
    if Tally(c, u, k) == Tally(c', u', k') {
      assert Tally(c, u, k).fields["created"] == JNum(c) && Tally(c', u', k').fields["created"] == JNum(c');
      assert Tally(c, u, k).fields["updated"] == JNum(u) && Tally(c', u', k').fields["updated"] == JNum(u');
      assert Tally(c, u, k).fields["skipped"] == JNum(k) && Tally(c', u', k').fields["skipped"] == JNum(k');
    }
  }

  /**
   * The report loses nothing: two results report the same dict exactly when
   * their nine counters and their error lists are equal.
   */
  lemma ToDictLossless(a: SyncResult, b: SyncResult)
    ensures a.ToDict() == b.ToDict() <==> a.Counters() == b.Counters() && a.errors == b.errors
  {
    var da, db := a.ToDict(), b.ToDict();
    var ca, cb := a.Counters(), b.Counters();
    if ca == cb && a.errors == b.errors {
      assert da["errors"] == db["errors"];
    }
    if da == db {
      TallyInjective(ca[0], ca[1], ca[2], cb[0], cb[1], cb[2]);
      TallyInjective(ca[3], ca[4], ca[5], cb[3], cb[4], cb[5]);
      TallyInjective(ca[6], ca[7], ca[8], cb[6], cb[7], cb[8]);
      assert ca == cb;
      forall i | 0 <= i < |a.errors| ensures a.errors[i] == b.errors[i] {
        assert da["errors"].items[i] == db["errors"].items[i];
      }
    }
  }

  // ---------------------------------------------------------------------------
  // Points
  // ---------------------------------------------------------------------------

  /**
   * A FlightDeck point as the sync loop reads it. `id` holds the text of the point's id
   * when the point object has an id attribute; the tag fields may be None.
   */
  datatype AcePoint = AcePoint(name: string, id: Option<string>, markerTags: Option<seq<string>>, kvTags: Option<Dict>)

  /**
   * The arguments the sync code passes to the SkySpark library's Point model. refName and kind
   * are passed on exactly as read from the SkySpark point, whatever their type.
   */
  datatype SkyPoint = SkyPoint(
    id: Option<string>, dis: string, refName: Json, siteRef: string, equipRef: string,
    kind: Json, markerTags: seq<string>, kvTags: Dict)

  /** `_get_haystack_ref`: the point's `haystackRef` key-value tag, or None when there is none. */
  function GetHaystackRef(p: AcePoint): (ref: Json)
    ensures p.kvTags.Some? && HaystackRefTag in p.kvTags.value ==> ref == p.kvTags.value[HaystackRefTag]
    ensures !(p.kvTags.Some? && HaystackRefTag in p.kvTags.value) ==> ref == JNull
  {
    if p.kvTags.None? || p.kvTags.value == map[] then JNull
    else Get(p.kvTags.value, HaystackRefTag, JNull)
  }

  /** The FlightDeck markers, or none when the point has no marker list or an empty one. */
  function SourceMarkers(p: AcePoint): seq<string> {
    if p.markerTags.Some? then p.markerTags.value else []
  }

  /** The FlightDeck key-value tags, or none when the point has no tag dict or an empty one. */
  function SourceKv(p: AcePoint): Dict {
    if p.kvTags.Some? then p.kvTags.value else map[]
  }

  /** The key-value tags sent to SkySpark: the source's, with haystackRef removed and nothing else changed. */
  function OutgoingKv(kv: Dict): (r: Dict)
    ensures r.Keys == kv.Keys - {HaystackRefTag}
    ensures forall k :: k in r ==> r[k] == kv[k]
  {
    map k | k in kv && k != HaystackRefTag :: kv[k]
  }

  /**
   * `_prepare_point_create`: the arguments for a new SkySpark point, carrying
   * the FlightDeck name, "point" before the FlightDeck markers, and no
   * haystackRef among the key-values.
   */
  function PreparePointCreate(p: AcePoint): (r: SkyPoint)
    ensures r.id.None? && r.dis == p.name
    ensures |r.markerTags| == |SourceMarkers(p)| + 1 && r.markerTags[0] == "point"
    ensures HaystackRefTag !in r.kvTags
  {
    var refName :=
      if p.id.Some? then "ace-point-" + p.id.value
      else "ace-" + ReplaceChar(p.name, ' ', '_');
    SkyPoint(None, p.name, JStr(refName), "placeholder-site", "placeholder-equip", JStr("Number"),
             ["point"] + SourceMarkers(p), OutgoingKv(SourceKv(p)))
  }

  /**
   * A create carries the FlightDeck name and tags (with "point" first and
   * haystackRef removed), a refName derived from the FlightDeck id or name,
   * and the placeholder site and equipment references.
   */
  lemma PrepareCreateSpec(p: AcePoint)
    ensures var r := PreparePointCreate(p);
            && r.id.None? && r.dis == p.name
            && r.markerTags == ["point"] + SourceMarkers(p)
            && r.kvTags.Keys == SourceKv(p).Keys - {HaystackRefTag}
            && (forall k :: k in r.kvTags ==> r.kvTags[k] == SourceKv(p)[k])
            && (p.id.Some? ==> r.refName == JStr("ace-point-" + p.id.value))
            && (p.id.None? ==> r.refName.JStr? && StartsWith(r.refName.s, "ace-") && ' ' !in r.refName.s
                               && |r.refName.s| == 4 + |p.name|
                               && forall i :: 0 <= i < |p.name| ==>
                                    r.refName.s[4 + i] == if p.name[i] == ' ' then '_' else p.name[i])
            && r.siteRef == "placeholder-site" && r.equipRef == "placeholder-equip" && r.kind == JStr("Number")
  {
  }

  /**
   * One reference read of `_prepare_point_update`: the reference held in
   * a `{"val": ...}` wrapper without its leading `@`s, `""` when the field is
   * missing, and the AttributeError Python raises when the field is not a dict
   * or its `val` is not a string.
   */
  function RefField(sky: Dict, field: string): Result<string, Exception>
  {
    var holder := Get(sky, field, JObj(map[]));
    var val :- GetOf(holder, "val", JStr(""));
    LStripOf(val, IsAt)
  }

  /**
   * A missing field reads as `""`; a field that is not a dict fails on `get`, a
   * `val` that is not a string fails on `lstrip`, and a string `val` loses its
   * leading `@`s.
   */
  lemma RefFieldCases(sky: Dict, field: string)
    ensures field !in sky ==> RefField(sky, field) == Ok("")
    ensures var holder := Get(sky, field, JObj(map[]));
            && (!holder.JObj? ==> RefField(sky, field) == Err(NoAttribute(holder, "get")))
            && (holder.JObj? ==> var val := Get(holder.fields, "val", JStr(""));
                 && (!val.JStr? ==> RefField(sky, field) == Err(NoAttribute(val, "lstrip")))
                 && (val.JStr? ==> RefField(sky, field) == Ok(TrimStart(val.s, IsAt))))
  {
  }

  /**
   * `_prepare_point_update`: the id, siteRef and equipRef of the existing
   * SkySpark point without `@`, its refName as it is (default `""`) and its kind
   * (default `"Number"`); name, markers and key-values are built exactly as for a
   * create. Fails with the first AttributeError of the three reference reads.
   */
  function PreparePointUpdate(p: AcePoint, sky: Dict): (r: Result<SkyPoint, Exception>)
    ensures r.Ok? ==> r.value.id.Some? && r.value.dis == p.name
    ensures r.Ok? ==> |r.value.markerTags| == |SourceMarkers(p)| + 1 && r.value.markerTags[0] == "point"
    ensures r.Ok? ==> HaystackRefTag !in r.value.kvTags
  {
    var pointId :- RefField(sky, "id");
    var refName := Get(sky, "refName", JStr(""));
    var siteRef :- RefField(sky, "siteRef");
    var equipRef :- RefField(sky, "equipRef");
    var kind := Get(sky, "kind", JStr("Number"));
    Ok(SkyPoint(Some(pointId), p.name, refName, siteRef, equipRef, kind,
                ["point"] + SourceMarkers(p), OutgoingKv(SourceKv(p))))
  }

  /**
   * An update is prepared exactly when all three reference reads succeed;
   * otherwise it fails with the first of their errors, in the order id,
   * siteRef, equipRef.
   */
  lemma PrepareUpdateCases(p: AcePoint, sky: Dict)
    ensures var r, id, site, equip := PreparePointUpdate(p, sky),
                RefField(sky, "id"), RefField(sky, "siteRef"), RefField(sky, "equipRef");
            && (r.Ok? <==> id.Ok? && site.Ok? && equip.Ok?)
            && (id.Err? ==> r == Err(id.error))
            && (id.Ok? && site.Err? ==> r == Err(site.error))
            && (id.Ok? && site.Ok? && equip.Err? ==> r == Err(equip.error))
            && (r.Ok? ==> && r.value.id == Some(id.value)
                          && r.value.siteRef == site.value
                          && r.value.equipRef == equip.value
                          && r.value.refName == Get(sky, "refName", JStr(""))
                          && r.value.kind == Get(sky, "kind", JStr("Number")))
    ensures var r, c := PreparePointUpdate(p, sky), PreparePointCreate(p);
            r.Ok? ==> r.value.dis == c.dis && r.value.markerTags == c.markerTags && r.value.kvTags == c.kvTags
  {
  }

  // ---------------------------------------------------------------------------
  // The haystackRef index of SkySpark points
  // ---------------------------------------------------------------------------

  /** The key `_build_ref_map` files a SkySpark point under: its haystackRef rendered as a string, when that tag is truthy. */
  function RefKey(point: Dict, show: Json -> string): Option<string> {
    var ref := Get(point, HaystackRefTag, JNull);
    if Truthy(ref) then Some(PyStr(ref, show)) else None
  }

  /** The dict `_build_ref_map` returns after reading `points` in order. */
  function RefMapOf(points: seq<Dict>, show: Json -> string): map<string, Dict>
    decreases |points|
  {
    if points == [] then map[]
    else
      var init := RefMapOf(points[..|points| - 1], show);
      var last := points[|points| - 1];
      var key := RefKey(last, show);
      if key.Some? then init[key.value := last] else init
  }

  /** `_build_ref_map` */
  method BuildRefMap(points: seq<Dict>, show: Json -> string) returns (refMap: map<string, Dict>)
    ensures refMap == RefMapOf(points, show)
  {
    refMap := map[];
    for i := 0 to |points|
      invariant refMap == RefMapOf(points[..i], show)
    {
      assert points[..i + 1][..i] == points[..i];
      var haystackRef := Get(points[i], HaystackRefTag, JNull);
      if Truthy(haystackRef) {
        refMap := refMap[PyStr(haystackRef, show) := points[i]];
      }
    }
    assert points[..|points|] == points;
  }

  /**
   * The ref map holds a key exactly when some point has a truthy haystackRef
   * rendering to it, and maps it to the LAST such point.
   */
  lemma {:induction false} RefMapEntry(points: seq<Dict>, show: Json -> string, k: string)
    ensures k in RefMapOf(points, show) <==> exists i :: 0 <= i < |points| && RefKey(points[i], show) == Some(k)
    ensures k in RefMapOf(points, show) ==>
              exists i :: 0 <= i < |points| && RefMapOf(points, show)[k] == points[i]
                          && RefKey(points[i], show) == Some(k)
                          && forall j :: i < j < |points| ==> RefKey(points[j], show) != Some(k)
    decreases |points|
  {
    if points != [] {
      var n := |points| - 1;
      var init := points[..n];
      RefMapEntry(init, show, k);
      assert forall i :: 0 <= i < n ==> init[i] == points[i];
      if RefKey(points[n], show) == Some(k) {
        assert RefMapOf(points, show)[k] == points[n];
      } else if k in RefMapOf(init, show) {
        var i :| 0 <= i < n && RefMapOf(init, show)[k] == init[i] && RefKey(init[i], show) == Some(k)
                 && forall j :: i < j < n ==> RefKey(init[j], show) != Some(k);
        assert RefMapOf(points, show)[k] == points[i];
        assert forall j :: i < j < |points| ==> RefKey(points[j], show) != Some(k);
      } else {
        assert forall i :: 0 <= i < |points| ==> RefKey(points[i], show) != Some(k);
      }
    }
  }

  /** A point whose haystackRef is a non-empty string is found in the map under that very string. */
  lemma RefMapStringKey(points: seq<Dict>, show: Json -> string, i: nat, ref: string)
    requires i < |points| && Get(points[i], HaystackRefTag, JNull) == JStr(ref) && ref != ""
    ensures ref in RefMapOf(points, show)
  {
    RefMapEntry(points, show, ref);
    assert RefKey(points[i], show) == Some(ref);
  }

  // ---------------------------------------------------------------------------
  // Classification
  // ---------------------------------------------------------------------------

  /**
   * The validation the SkySpark library's `Point` model performs on the
   * arguments it is built from (for instance, that a function marker is
   * present): None when it accepts them, or the exception it raises. The rules
   * live in that library, so the model takes them as a parameter.
   */
  type PointCheck = SkyPoint -> Option<Exception>

  /** What the loop of `sync_points_for_site` does with one point. */
  datatype Decision = ToCreate(point: SkyPoint) | ToUpdate(point: SkyPoint) | Failed(message: string)

  /** The message recorded for a point whose processing raised `e`. */
  function PointError(p: AcePoint, e: Exception): string {
    "Error processing point " + p.name + ": " + Describe(e)
  }

  /** The TypeError raised when an unhashable `ref` is looked up in a dict. */
  function Unhashable(ref: Json): Exception {
    TypeError("unhashable type: '" + TypeName(ref) + "'")
  }

  /** The ref is truthy and a key of the ref map; only a non-empty string can be both. */
  predicate Resolves(ref: Json, refMap: map<string, Dict>) {
    ref.JStr? && ref.s != "" && ref.s in refMap
  }

  /** Building the `Point` from `args`: an error message when the library refuses them. */
  function Construct(p: AcePoint, args: SkyPoint, check: PointCheck, update: bool): (d: Decision)
    ensures check(args).Some? ==> d == Failed(PointError(p, check(args).value))
    ensures check(args).None? ==> d == if update then ToUpdate(args) else ToCreate(args)
  {
    match check(args)
    case Some(e) => Failed(PointError(p, e))
    case None => if update then ToUpdate(args) else ToCreate(args)
  }

  /**
   * One iteration of the loop: a point whose haystackRef is a non-empty string
   * and a key of the ref map is prepared as an update, any other point as a
   * create. A truthy list or dict ref cannot be looked up, an update whose
   * SkySpark point is malformed raises, and the library may refuse the
   * prepared arguments; each of these becomes an error message.
   */
  function Decide(p: AcePoint, refMap: map<string, Dict>, check: PointCheck): (d: Decision)
    ensures d.ToUpdate? ==> Resolves(GetHaystackRef(p), refMap)
    ensures !d.Failed? ==> HaystackRefTag !in d.point.kvTags
  {
    var haystackRef := GetHaystackRef(p);
    if !Truthy(haystackRef) then Construct(p, PreparePointCreate(p), check, false)
    else if !Hashable(haystackRef) then Failed(PointError(p, Unhashable(haystackRef)))
    else if haystackRef.JStr? && haystackRef.s in refMap then
      match PreparePointUpdate(p, refMap[haystackRef.s])
      case Ok(updated) => Construct(p, updated, check, true)
      case Err(e) => Failed(PointError(p, e))
    else Construct(p, PreparePointCreate(p), check, false)
  }

  /**
   * Decide in full: a point is updated exactly when its haystackRef resolves,
   * the update can be prepared and the library accepts it; created exactly
   * when its ref is falsy or a hashable value that does not resolve and the
   * library accepts the create; and fails otherwise with the message of the
   * exception raised.
   */
  lemma DecideCases(p: AcePoint, refMap: map<string, Dict>, check: PointCheck)
    ensures var ref := GetHaystackRef(p);
            Decide(p, refMap, check).ToUpdate? <==>
              Resolves(ref, refMap) && PreparePointUpdate(p, refMap[ref.s]).Ok?
              && check(PreparePointUpdate(p, refMap[ref.s]).value).None?
    ensures var ref := GetHaystackRef(p);
            Decide(p, refMap, check).ToUpdate? ==>
              Decide(p, refMap, check).point == PreparePointUpdate(p, refMap[ref.s]).value
    ensures var ref := GetHaystackRef(p);
            Decide(p, refMap, check).ToCreate? <==>
              (!Truthy(ref) || (Hashable(ref) && !Resolves(ref, refMap))) && check(PreparePointCreate(p)).None?
    ensures Decide(p, refMap, check).ToCreate? ==> Decide(p, refMap, check).point == PreparePointCreate(p)
    ensures var ref, d := GetHaystackRef(p), Decide(p, refMap, check);
            d.Failed? ==>
              (Truthy(ref) && !Hashable(ref) && d.message == PointError(p, Unhashable(ref)))
              || (Resolves(ref, refMap) && PreparePointUpdate(p, refMap[ref.s]).Err?
                  && d.message == PointError(p, PreparePointUpdate(p, refMap[ref.s]).error))
              || (Resolves(ref, refMap) && PreparePointUpdate(p, refMap[ref.s]).Ok?
                  && check(PreparePointUpdate(p, refMap[ref.s]).value).Some?
                  && d.message == PointError(p, check(PreparePointUpdate(p, refMap[ref.s]).value).value))
              || ((!Truthy(ref) || (Hashable(ref) && !Resolves(ref, refMap)))
                  && check(PreparePointCreate(p)).Some?
                  && d.message == PointError(p, check(PreparePointCreate(p)).value))
  {
  }

  /** The three lists the loop builds: points to create, points to update and error messages, each in input order. */
  datatype Outcome = Outcome(creates: seq<SkyPoint>, updates: seq<SkyPoint>, failures: seq<string>)

  /** One decision appended to the list it belongs to. */
  function Record(o: Outcome, d: Decision): Outcome {
    match d
    case ToCreate(point) => o.(creates := o.creates + [point])
    case ToUpdate(point) => o.(updates := o.updates + [point])
    case Failed(message) => o.(failures := o.failures + [message])
  }

  /** What the loop has built after reading `ps`. */
  function Classification(ps: seq<AcePoint>, refMap: map<string, Dict>, check: PointCheck): Outcome
    decreases |ps|
  {
    if ps == [] then Outcome([], [], [])
    else Record(Classification(ps[..|ps| - 1], refMap, check), Decide(ps[|ps| - 1], refMap, check))
  }

  /** `points_to_create` after the loop has read `ps`. */
  function Creates(ps: seq<AcePoint>, refMap: map<string, Dict>, check: PointCheck): seq<SkyPoint> {
    Classification(ps, refMap, check).creates
  }

  /** `points_to_update` after the loop has read `ps`. */
  function Updates(ps: seq<AcePoint>, refMap: map<string, Dict>, check: PointCheck): seq<SkyPoint> {
    Classification(ps, refMap, check).updates
  }

  /** The errors the loop adds after reading `ps`. */
  function Failures(ps: seq<AcePoint>, refMap: map<string, Dict>, check: PointCheck): seq<string> {
    Classification(ps, refMap, check).failures
  }

  /** Reading one more point records its decision. */
  lemma ClassifyStep(ps: seq<AcePoint>, i: nat, refMap: map<string, Dict>, check: PointCheck)
    requires i < |ps|
    ensures Classification(ps[..i + 1], refMap, check)
            == Record(Classification(ps[..i], refMap, check), Decide(ps[i], refMap, check))
  {
    assert ps[..i + 1][..i] == ps[..i];
  }

  /** The classification loop of `sync_points_for_site`. */
  method ClassifyPoints(acePoints: seq<AcePoint>, refMap: map<string, Dict>, check: PointCheck, result: SyncResult)
    returns (pointsToCreate: seq<SkyPoint>, pointsToUpdate: seq<SkyPoint>)
    modifies result`errors, result`pointsSkipped
    ensures pointsToCreate == Creates(acePoints, refMap, check)
    ensures pointsToUpdate == Updates(acePoints, refMap, check)
    ensures result.errors == old(result.errors) + Failures(acePoints, refMap, check)
    ensures result.pointsSkipped == old(result.pointsSkipped) + |pointsToUpdate|
  {
    pointsToCreate, pointsToUpdate := [], [];
    ghost var failures: seq<string> := [];
    for i := 0 to |acePoints|
      invariant Outcome(pointsToCreate, pointsToUpdate, failures) == Classification(acePoints[..i], refMap, check)
      invariant result.errors == old(result.errors) + failures
      invariant result.pointsSkipped == old(result.pointsSkipped) + |pointsToUpdate|
    {
      ClassifyStep(acePoints, i, refMap, check);
      var decision := Decide(acePoints[i], refMap, check);
      if decision.ToUpdate? {
        pointsToUpdate := pointsToUpdate + [decision.point];
        result.pointsSkipped := result.pointsSkipped + 1;
      } else if decision.ToCreate? {
        pointsToCreate := pointsToCreate + [decision.point];
      } else {
        result.AddError(decision.message);
        failures := failures + [decision.message];
      }
    }
    assert acePoints[..|acePoints|] == acePoints;
  }

  /** Every point lands in exactly one place: the create list, the update list or the errors. */
  lemma {:induction false} ClassificationPartition(ps: seq<AcePoint>, refMap: map<string, Dict>, check: PointCheck)
    ensures |Creates(ps, refMap, check)| + |Updates(ps, refMap, check)| + |Failures(ps, refMap, check)| == |ps|
    decreases |ps|
  {
    if ps != [] {
      ClassificationPartition(ps[..|ps| - 1], refMap, check);
    }
  }

  /**
   * When every point's haystackRef resolves to a well-formed SkySpark point and
   * the library accepts every update (as on a run after all points were
   * synced), nothing is created and every point is updated.
   */
  lemma AllResolvedAllUpdated(ps: seq<AcePoint>, refMap: map<string, Dict>, check: PointCheck)
    requires forall i :: 0 <= i < |ps| ==>
               Resolves(GetHaystackRef(ps[i]), refMap)
               && PreparePointUpdate(ps[i], refMap[GetHaystackRef(ps[i]).s]).Ok?
               && check(PreparePointUpdate(ps[i], refMap[GetHaystackRef(ps[i]).s]).value).None?
    ensures Creates(ps, refMap, check) == [] && Failures(ps, refMap, check) == []
    ensures |Updates(ps, refMap, check)| == |ps|
  {
    forall i | 0 <= i < |ps| ensures Decide(ps[i], refMap, check).ToUpdate? {
      ResolvedIsUpdated(ps[i], refMap, check);
    }
    AllUpdatesRecorded(ps, refMap, check);
  }

  /** Decisions that are all updates fill only the update list. */
  lemma {:induction false} AllUpdatesRecorded(ps: seq<AcePoint>, refMap: map<string, Dict>, check: PointCheck)
    requires forall i :: 0 <= i < |ps| ==> Decide(ps[i], refMap, check).ToUpdate?
    ensures Creates(ps, refMap, check) == [] && Failures(ps, refMap, check) == []
    ensures |Updates(ps, refMap, check)| == |ps|
    decreases |ps|
  {
    if ps != [] {
      var init, last := ps[..|ps| - 1], ps[|ps| - 1];
      forall i | 0 <= i < |init| ensures Decide(init[i], refMap, check).ToUpdate? {
        assert init[i] == ps[i];
      }
      AllUpdatesRecorded(init, refMap, check);
      var d := Decide(last, refMap, check);
      assert d.ToUpdate?;
      assert Creates(ps, refMap, check) == Creates(init, refMap, check) + [];
      assert Failures(ps, refMap, check) == Failures(init, refMap, check) + [];
      assert Updates(ps, refMap, check) == Updates(init, refMap, check) + [d.point];
    }
  }

  /** A point whose haystackRef resolves to a well-formed SkySpark point, and whose update the library accepts, is updated. */
  lemma ResolvedIsUpdated(p: AcePoint, refMap: map<string, Dict>, check: PointCheck)
    requires Resolves(GetHaystackRef(p), refMap) && PreparePointUpdate(p, refMap[GetHaystackRef(p).s]).Ok?
    requires check(PreparePointUpdate(p, refMap[GetHaystackRef(p).s]).value).None?
    ensures Decide(p, refMap, check).ToUpdate?
  {
    var ref := GetHaystackRef(p);
    assert Truthy(ref) && Hashable(ref);
    match PreparePointUpdate(p, refMap[ref.s])
    case Ok(updated) =>
      assert Decide(p, refMap, check) == Construct(p, updated, check, true);
  }

  /** A point with no haystackRef, whose create the library accepts, is prepared as a create. */
  lemma UnreferencedIsCreated(p: AcePoint, refMap: map<string, Dict>, check: PointCheck)
    requires !Truthy(GetHaystackRef(p)) && check(PreparePointCreate(p)).None?
    ensures Decide(p, refMap, check) == ToCreate(PreparePointCreate(p))
  {
  }

  /** Points with no haystackRef at all, whose creates the library accepts, are all prepared as creates. */
  lemma NoRefsAllCreated(ps: seq<AcePoint>, refMap: map<string, Dict>, check: PointCheck)
    requires forall i :: 0 <= i < |ps| ==> !Truthy(GetHaystackRef(ps[i])) && check(PreparePointCreate(ps[i])).None?
    ensures |Creates(ps, refMap, check)| == |ps|
    ensures forall i :: 0 <= i < |ps| ==> Creates(ps, refMap, check)[i] == PreparePointCreate(ps[i])
    ensures Updates(ps, refMap, check) == [] && Failures(ps, refMap, check) == []
  {
    forall i | 0 <= i < |ps| ensures Decide(ps[i], refMap, check) == ToCreate(PreparePointCreate(ps[i])) {
      UnreferencedIsCreated(ps[i], refMap, check);
    }
    AllCreatesRecorded(ps, refMap, check);
  }

  /** `o` holds exactly the creates prepared from `ps`, and nothing else. */
  predicate CreatedFrom(o: Outcome, ps: seq<AcePoint>) {
    && |o.creates| == |ps|
    && (forall i :: 0 <= i < |ps| ==> o.creates[i] == PreparePointCreate(ps[i]))
    && o.updates == [] && o.failures == []
  }

  /** Recording the create prepared from `p` extends `CreatedFrom` by `p`. */
  lemma RecordCreate(o: Outcome, ps: seq<AcePoint>, p: AcePoint)
    requires CreatedFrom(o, ps)
    ensures CreatedFrom(Record(o, ToCreate(PreparePointCreate(p))), ps + [p])
  {
    var r, qs := Record(o, ToCreate(PreparePointCreate(p))), ps + [p];
    assert r.creates == o.creates + [PreparePointCreate(p)];
    forall i | 0 <= i < |qs| ensures r.creates[i] == PreparePointCreate(qs[i]) {
      if i < |ps| {
        assert r.creates[i] == o.creates[i] && qs[i] == ps[i];
      } else {
        assert qs[i] == p;
      }
    }
  }

  /** Decisions that are all creates fill only the create list, in input order. */
  lemma {:induction false} AllCreatesRecorded(ps: seq<AcePoint>, refMap: map<string, Dict>, check: PointCheck)
    requires forall i :: 0 <= i < |ps| ==> Decide(ps[i], refMap, check) == ToCreate(PreparePointCreate(ps[i]))
    ensures CreatedFrom(Classification(ps, refMap, check), ps)
    decreases |ps|
  {
    if ps != [] {
      var init, last := ps[..|ps| - 1], ps[|ps| - 1];
      forall i | 0 <= i < |init| ensures Decide(init[i], refMap, check) == ToCreate(PreparePointCreate(init[i])) {
        assert init[i] == ps[i];
      }
      AllCreatesRecorded(init, refMap, check);
      assert Decide(last, refMap, check) == ToCreate(PreparePointCreate(last));
      RecordCreate(Classification(init, refMap, check), init, last);
      assert init + [last] == ps;
    }
  }

  /**
   * Points with no haystackRef whose creates the library refuses are all
   * errors, one per point in input order: nothing is created or updated.
   */
  lemma {:induction false} NoRefsAllRefused(ps: seq<AcePoint>, refMap: map<string, Dict>, check: PointCheck)
    requires forall i :: 0 <= i < |ps| ==> !Truthy(GetHaystackRef(ps[i])) && check(PreparePointCreate(ps[i])).Some?
    ensures Creates(ps, refMap, check) == [] && Updates(ps, refMap, check) == []
    ensures |Failures(ps, refMap, check)| == |ps|
    ensures forall i :: 0 <= i < |ps| ==>
              Failures(ps, refMap, check)[i] == PointError(ps[i], check(PreparePointCreate(ps[i])).value)
    decreases |ps|
  {
    if ps != [] {
      var init, last := ps[..|ps| - 1], ps[|ps| - 1];
      forall i | 0 <= i < |init|
        ensures !Truthy(GetHaystackRef(init[i])) && check(PreparePointCreate(init[i])).Some?
      {
        assert init[i] == ps[i];
      }
      NoRefsAllRefused(init, refMap, check);
      var m := PointError(last, check(PreparePointCreate(last)).value);
      assert Decide(last, refMap, check) == Failed(m);
      var f, fi := Failures(ps, refMap, check), Failures(init, refMap, check);
      assert f == fi + [m];
      assert Creates(ps, refMap, check) == Creates(init, refMap, check) + [];
      assert Updates(ps, refMap, check) == Updates(init, refMap, check) + [];
      forall i | 0 <= i < |ps| ensures f[i] == PointError(ps[i], check(PreparePointCreate(ps[i])).value) {
        if i < |init| {
          assert f[i] == fi[i] && ps[i] == init[i];
        } else {
          assert i == |fi| && ps[i] == last;
        }
      }
    }
  }

  /** No point of `xs` carries haystackRef among its key-value tags. */
  predicate OmitsRef(xs: seq<SkyPoint>) {
    forall i :: 0 <= i < |xs| ==> HaystackRefTag !in xs[i].kvTags
  }

  /** Recording a decision that omits haystackRef keeps both lists free of it. */
  lemma RecordOmitsRef(o: Outcome, d: Decision)
    requires OmitsRef(o.creates) && OmitsRef(o.updates)
    requires !d.Failed? ==> HaystackRefTag !in d.point.kvTags
    ensures OmitsRef(Record(o, d).creates) && OmitsRef(Record(o, d).updates)
  {
    var r := Record(o, d);
    forall i | 0 <= i < |r.creates| ensures HaystackRefTag !in r.creates[i].kvTags {
      if i < |o.creates| {
        assert r.creates[i] == o.creates[i];
      }
    }
    forall i | 0 <= i < |r.updates| ensures HaystackRefTag !in r.updates[i].kvTags {
      if i < |o.updates| {
        assert r.updates[i] == o.updates[i];
      }
    }
  }

  /** No prepared point, created or updated, carries haystackRef among its key-value tags. */
  lemma {:induction false} NoHaystackRefSent(ps: seq<AcePoint>, refMap: map<string, Dict>, check: PointCheck)
    ensures OmitsRef(Creates(ps, refMap, check)) && OmitsRef(Updates(ps, refMap, check))
    decreases |ps|
  {
    if ps != [] {
      var init := ps[..|ps| - 1];
      NoHaystackRefSent(init, refMap, check);
      RecordOmitsRef(Classification(init, refMap, check), Decide(ps[|ps| - 1], refMap, check));
    }
  }

  // ---------------------------------------------------------------------------
  // Batches
  // ---------------------------------------------------------------------------

  /** What a SkySpark write call does: returns the written points, or raises. */
  datatype Reply = Sent(items: seq<Dict>) | Raised(error: Exception)

  /** The consecutive slices of `s` the batch loop takes: b items each, the last one possibly shorter. */
  function Chunks<T>(s: seq<T>, b: nat): seq<seq<T>>
    requires b > 0
    decreases |s|
  {
    if s == [] then []
    else if |s| <= b then [s]
    else [s[..b]] + Chunks(s[b..], b)
  }

  function Flatten<T>(chunks: seq<seq<T>>): seq<T>
    decreases |chunks|
  {
    if chunks == [] then [] else chunks[0] + Flatten(chunks[1..])
  }

  /** Chunking loses and reorders nothing. */
  lemma {:induction false} ChunksFlatten<T>(s: seq<T>, b: nat)
    requires b > 0
    ensures Flatten(Chunks(s, b)) == s
    decreases |s|
  {
    if s == [] {
    } else if |s| <= b {
      assert Flatten([s]) == s + Flatten([s][1..]);
      assert [s][1..] == [];
    } else {
      ChunksFlatten(s[b..], b);
      var c := Chunks(s, b);
      assert c[0] == s[..b] && c[1..] == Chunks(s[b..], b);
      assert s == s[..b] + s[b..];
    }
  }

  /** Every chunk holds between 1 and b items, and all but the last exactly b. */
  lemma {:induction false} ChunksSizes<T>(s: seq<T>, b: nat)
    requires b > 0
    ensures forall i :: 0 <= i < |Chunks(s, b)| ==> 0 < |Chunks(s, b)[i]| <= b
    ensures forall i :: 0 <= i < |Chunks(s, b)| - 1 ==> |Chunks(s, b)[i]| == b
    decreases |s|
  {
    if |s| > b {
      ChunksSizes(s[b..], b);
      var c := Chunks(s, b);
      assert forall i :: 1 <= i < |c| ==> c[i] == Chunks(s[b..], b)[i - 1];
    }
  }

  /** There are ceil(n / b) chunks: b times their number covers n, and one chunk fewer would not. */
  lemma {:induction false} ChunksCount<T>(s: seq<T>, b: nat)
    requires b > 0
    ensures (|Chunks(s, b)| - 1) * b < |s| <= |Chunks(s, b)| * b
    decreases |s|
  {
    if |s| > b {
      var k := |Chunks(s[b..], b)|;
      ChunksCount(s[b..], b);
      assert |Chunks(s, b)| == k + 1;
      assert (k + 1) * b == k * b + b;
    }
  }

  /** Keeps a failure; otherwise puts `xs` before what the remaining batches return. */
  function Prepend(xs: seq<Dict>, r: Reply): Reply {
    match r
    case Sent(ys) => Sent(xs + ys)
    case Raised(e) => Raised(e)
  }

  /** Sending the chunks in order: the first failure is re-raised, otherwise the replies are joined in order. */
  function RunBatches(chunks: seq<seq<SkyPoint>>, send: seq<SkyPoint> -> Reply): Reply
    decreases |chunks|
  {
    if chunks == [] then Sent([])
    else
      match send(chunks[0])
      case Raised(e) => Raised(e)
      case Sent(xs) => Prepend(xs, RunBatches(chunks[1..], send))
  }

  /** The batches that reach the sink: all of them up to and including the first that fails. */
  ghost function BatchesSent(chunks: seq<seq<SkyPoint>>, send: seq<SkyPoint> -> Reply): seq<seq<SkyPoint>>
    decreases |chunks|
  {
    if chunks == [] then []
    else if send(chunks[0]).Raised? then [chunks[0]]
    else [chunks[0]] + BatchesSent(chunks[1..], send)
  }

  /** The message Python raises for a range with step zero. */
  const ZeroStepMessage := "range() arg 3 must not be zero"

  /**
   * What `_create_points_batch` and `_update_points_batch` return: a zero
   * batch size makes `range` raise, a negative one makes the loop empty.
   */
  function SendBatchesSpec(points: seq<SkyPoint>, batchSize: int, send: seq<SkyPoint> -> Reply): Reply {
    if batchSize == 0 then Raised(ValueError(ZeroStepMessage))
    else if batchSize < 0 then Sent([])
    else RunBatches(Chunks(points, batchSize), send)
  }

  /** The next chunk runs from i to hi, and the rest are the chunks of what follows it. */
  lemma ChunksFrom(points: seq<SkyPoint>, b: nat, i: nat, hi: nat)
    requires b > 0 && i < |points| && hi == (if i + b < |points| then i + b else |points|)
    ensures Chunks(points[i..], b) == [points[i..hi]] + Chunks(points[hi..], b)
  {
    var rest := points[i..];
    if |rest| > b {
      assert rest[..b] == points[i..hi];
      assert rest[b..] == points[hi..];
      assert Chunks(rest, b) == [rest[..b]] + Chunks(rest[b..], b);
    } else {
      assert rest == points[i..hi];
      assert points[hi..] == [];
      assert Chunks(rest, b) == [rest];
    }
  }

  /** Sending one more batch: a failure ends everything, a success adds its reply before the rest. */
  lemma BatchStep(batch: seq<SkyPoint>, rest: seq<seq<SkyPoint>>, send: seq<SkyPoint> -> Reply, sent: seq<Dict>)
    ensures send(batch).Raised? ==> Prepend(sent, RunBatches([batch] + rest, send)) == send(batch)
    ensures send(batch).Raised? ==> BatchesSent([batch] + rest, send) == [batch]
    ensures send(batch).Sent? ==> Prepend(sent, RunBatches([batch] + rest, send))
                                  == Prepend(sent + send(batch).items, RunBatches(rest, send))
    ensures send(batch).Sent? ==> BatchesSent([batch] + rest, send) == [batch] + BatchesSent(rest, send)
  {
    var chunks := [batch] + rest;
    assert chunks[0] == batch && chunks[1..] == rest;
    if send(batch).Sent? {
      match RunBatches(rest, send)
      case Sent(ys) =>
        assert sent + (send(batch).items + ys) == (sent + send(batch).items) + ys;
      case Raised(_) =>
    }
  }

  /**
   * The loop shared by `_create_points_batch` and `_update_points_batch`
   * (`send` is `create_points` or `update_points`). `calls` records the
   * batches passed to the sink.
   */
  method SendInBatches(points: seq<SkyPoint>, batchSize: int, send: seq<SkyPoint> -> Reply)
    returns (r: Reply, ghost calls: seq<seq<SkyPoint>>)
    ensures r == SendBatchesSpec(points, batchSize, send)
    ensures calls == if batchSize > 0 then BatchesSent(Chunks(points, batchSize), send) else []
  {
    calls := [];
    if batchSize == 0 {
      return Raised(ValueError(ZeroStepMessage)), calls;
    }
    if batchSize < 0 {
      return Sent([]), calls;
    }
    var n := |points|;
    var sentPoints: seq<Dict> := [];
    var i := 0;
    // Python steps i by batchSize; clamping the last step to n ends the loop identically
    while i < n
      invariant 0 <= i <= n
      invariant RunBatches(Chunks(points, batchSize), send)
                == Prepend(sentPoints, RunBatches(Chunks(points[i..], batchSize), send))
      invariant BatchesSent(Chunks(points, batchSize), send)
                == calls + BatchesSent(Chunks(points[i..], batchSize), send)
      decreases n - i
    {
      var hi := if i + batchSize < n then i + batchSize else n;
      var batch := points[i..hi];
      ChunksFrom(points, batchSize, i, hi);
      BatchStep(batch, Chunks(points[hi..], batchSize), send, sentPoints);
      var reply := send(batch);
      calls := calls + [batch];
      if reply.Raised? {
        assert BatchesSent(Chunks(points, batchSize), send) == calls;
        assert RunBatches(Chunks(points, batchSize), send) == reply;
        return reply, calls;
      }
      sentPoints := sentPoints + reply.items;
      i := hi;
    }
    assert points[i..] == [];
    assert Chunks(points[i..], batchSize) == [];
    return Sent(sentPoints), calls;
  }

  /**
   * With a positive batch size and a sink that never raises, every chunk is
   * sent once and in order, and the result is the concatenation of the replies.
   */
  lemma {:induction false} RunBatchesAllSent(chunks: seq<seq<SkyPoint>>, send: seq<SkyPoint> -> Reply)
    requires forall i :: 0 <= i < |chunks| ==> send(chunks[i]).Sent?
    ensures RunBatches(chunks, send) == Sent(Flatten(seq(|chunks|, i requires 0 <= i < |chunks| => send(chunks[i]).items)))
    ensures BatchesSent(chunks, send) == chunks
    decreases |chunks|
  {
    if chunks != [] {
      var rest := chunks[1..];
      assert forall i :: 0 <= i < |rest| ==> rest[i] == chunks[i + 1];
      RunBatchesAllSent(rest, send);
      var replies := seq(|chunks|, i requires 0 <= i < |chunks| => send(chunks[i]).items);
      assert replies[1..] == seq(|rest|, i requires 0 <= i < |rest| => send(rest[i]).items);
    }
  }

  /** A failing batch is the last one sent: the batch methods re-raise rather than continue. */
  lemma {:induction false} RunBatchesStopsAtFailure(chunks: seq<seq<SkyPoint>>, send: seq<SkyPoint> -> Reply, k: nat)
    requires k < |chunks| && send(chunks[k]).Raised?
    requires forall i :: 0 <= i < k ==> send(chunks[i]).Sent?
    ensures RunBatches(chunks, send) == Raised(send(chunks[k]).error)
    ensures BatchesSent(chunks, send) == chunks[..k + 1]
    decreases k
  {
    if k > 0 {
      var rest := chunks[1..];
      assert forall i :: 0 <= i < k - 1 ==> rest[i] == chunks[i + 1];
      RunBatchesStopsAtFailure(rest, send, k - 1);
      assert chunks[..k + 1] == [chunks[0]] + rest[..k];
    }
  }

  /** An empty list makes no sink call and returns `[]` for any usable batch size. */
  lemma NoPointsNoCalls(batchSize: int, send: seq<SkyPoint> -> Reply)
    requires batchSize != 0
    ensures SendBatchesSpec([], batchSize, send) == Sent([])
    ensures batchSize > 0 ==> BatchesSent(Chunks([], batchSize), send) == []
  {
  }

  // ---------------------------------------------------------------------------
  // sync_points_for_site
  // ---------------------------------------------------------------------------

  /**
   * The SkySpark library as the kernel sees it: the points `read_points`
   * returned, the validation of its `Point` model, and its two write calls.
   */
  datatype Sink = Sink(
    points: seq<Dict>,
    checkPoint: PointCheck,
    createPoints: seq<SkyPoint> -> Reply,
    updatePoints: seq<SkyPoint> -> Reply)

  /** The message recorded when an exception reaches the outer handler. */
  function SyncFailed(siteName: string, e: Exception): string {
    "Sync failed for site " + siteName + ": " + Describe(e)
  }

  /**
   * The write phase of `sync_points_for_site` outside a dry run, as (points
   * created, points updated, errors added): the creates, then the updates, and
   * the first exception ends the run with one error.
   */
  function WritePhase(siteName: string, creates: seq<SkyPoint>, updates: seq<SkyPoint>,
                      batchSize: int, sink: Sink): (int, int, seq<string>)
  {
    var c := if creates == [] then Sent([]) else SendBatchesSpec(creates, batchSize, sink.createPoints);
    if c.Raised? then (0, 0, [SyncFailed(siteName, c.error)])
    else
      var u := if updates == [] then Sent([]) else SendBatchesSpec(updates, batchSize, sink.updatePoints);
      if u.Raised? then (|c.items|, 0, [SyncFailed(siteName, u.error)])
      else (|c.items|, |u.items|, [])
  }

  /** The batches one batch method passes to the sink; an empty list is never sent. */
  ghost function BatchCalls(points: seq<SkyPoint>, batchSize: int, send: seq<SkyPoint> -> Reply): seq<seq<SkyPoint>> {
    if points != [] && batchSize > 0 then BatchesSent(Chunks(points, batchSize), send) else []
  }

  /**
   * Every batch the write phase passes to the sink, in order: the create
   * batches, then the update batches, which are sent only when no create
   * batch raised.
   */
  ghost function WriteCalls(creates: seq<SkyPoint>, updates: seq<SkyPoint>, batchSize: int, sink: Sink): seq<seq<SkyPoint>> {
    var c := if creates == [] then Sent([]) else SendBatchesSpec(creates, batchSize, sink.createPoints);
    var createCalls := BatchCalls(creates, batchSize, sink.createPoints);
    if c.Raised? then createCalls else createCalls + BatchCalls(updates, batchSize, sink.updatePoints)
  }

  /** Flattening distributes over concatenation. */
  lemma {:induction false} FlattenAppend<T>(a: seq<seq<T>>, b: seq<seq<T>>)
    ensures Flatten(a + b) == Flatten(a) + Flatten(b)
    decreases |a|
  {
    if a == [] {
      assert a + b == b;
    } else {
      FlattenAppend(a[1..], b);
      assert (a + b)[0] == a[0] && (a + b)[1..] == a[1..] + b;
    }
  }

  /**
   * When no batch raises, the sink receives the create chunks and then the
   * update chunks, so every prepared point is sent exactly once, creates first.
   */
  lemma WriteCallsAllSent(creates: seq<SkyPoint>, updates: seq<SkyPoint>, batchSize: int, sink: Sink)
    requires batchSize > 0
    requires forall i :: 0 <= i < |Chunks(creates, batchSize)| ==> sink.createPoints(Chunks(creates, batchSize)[i]).Sent?
    requires forall i :: 0 <= i < |Chunks(updates, batchSize)| ==> sink.updatePoints(Chunks(updates, batchSize)[i]).Sent?
    ensures WriteCalls(creates, updates, batchSize, sink) == Chunks(creates, batchSize) + Chunks(updates, batchSize)
    ensures Flatten(WriteCalls(creates, updates, batchSize, sink)) == creates + updates
  {
    var cs, us := Chunks(creates, batchSize), Chunks(updates, batchSize);
    RunBatchesAllSent(cs, sink.createPoints);
    RunBatchesAllSent(us, sink.updatePoints);
    ChunksFlatten(creates, batchSize);
    ChunksFlatten(updates, batchSize);
    FlattenAppend(cs, us);
  }

  /** A write phase adds at most one error, and with nothing to write it does nothing. */
  lemma WritePhaseBounds(siteName: string, creates: seq<SkyPoint>, updates: seq<SkyPoint>,
                         batchSize: int, sink: Sink)
    ensures |WritePhase(siteName, creates, updates, batchSize, sink).2| <= 1
    ensures creates == [] && updates == [] ==> WritePhase(siteName, creates, updates, batchSize, sink) == (0, 0, [])
  {
  }

  /** With a negative batch size nothing is ever written, yet the run reports no error. */
  lemma NegativeBatchSizeWritesNothing(siteName: string, creates: seq<SkyPoint>, updates: seq<SkyPoint>,
                                       batchSize: int, sink: Sink)
    requires batchSize < 0
    ensures WritePhase(siteName, creates, updates, batchSize, sink) == (0, 0, [])
  {
  }

  /** With a zero batch size any write raises in `range`, so the run ends with that one error. */
  lemma ZeroBatchSizeFails(siteName: string, creates: seq<SkyPoint>, updates: seq<SkyPoint>, sink: Sink)
    requires creates != [] || updates != []
    ensures WritePhase(siteName, creates, updates, 0, sink)
            == (0, 0, [SyncFailed(siteName, ValueError(ZeroStepMessage))])
  {
  }

  /**
   * The non-dry-run branch of `sync_points_for_site`: `_create_points_batch`,
   * then `_update_points_batch`, under the outer exception handler. `calls`
   * records every batch passed to the sink.
   */
  method WritePoints(siteName: string, pointsToCreate: seq<SkyPoint>, pointsToUpdate: seq<SkyPoint>,
                     batchSize: int, sink: Sink, result: SyncResult)
    returns (ghost calls: seq<seq<SkyPoint>>)
    modifies result
    ensures calls == WriteCalls(pointsToCreate, pointsToUpdate, batchSize, sink)
    ensures var w := WritePhase(siteName, pointsToCreate, pointsToUpdate, batchSize, sink);
            && result.pointsCreated == old(result.pointsCreated) + w.0
            && result.pointsUpdated == old(result.pointsUpdated) + w.1
            && result.pointsSkipped == old(result.pointsSkipped)
            && result.SiteAndEquipmentUnchanged()
            && result.errors == old(result.errors) + w.2
  {
    calls := [];
    var created: Reply := Sent([]);
    if pointsToCreate != [] {
      ghost var createCalls;
      created, createCalls := SendInBatches(pointsToCreate, batchSize, sink.createPoints);
      calls := createCalls;
      assert calls == BatchCalls(pointsToCreate, batchSize, sink.createPoints);
      if created.Raised? {
        result.AddError(SyncFailed(siteName, created.error));
        return;
      }
      result.pointsCreated := result.pointsCreated + |created.items|;
      // _store_refs_to_ace only logs the ids; it changes no state
    }
    assert calls == BatchCalls(pointsToCreate, batchSize, sink.createPoints);
    if pointsToUpdate != [] {
      var updated, updateCalls := SendInBatches(pointsToUpdate, batchSize, sink.updatePoints);
      assert updateCalls == BatchCalls(pointsToUpdate, batchSize, sink.updatePoints);
      calls := calls + updateCalls;
      if updated.Raised? {
        result.AddError(SyncFailed(siteName, updated.error));
        return;
      }
      result.pointsUpdated := result.pointsUpdated + |updated.items|;
    }
  }

  /**
   * `sync_points_for_site`, given what `_fetch_ace_points` returned and the
   * SkySpark client: site and equipment counters stay zero, every resolved
   * point is counted as skipped, and a dry run writes nothing.
   */
  method SyncPointsForSite(siteName: string, dryRun: bool, acePoints: seq<AcePoint>, sink: Sink,
                           batchSize: int, show: Json -> string)
    returns (result: SyncResult, ghost calls: seq<seq<SkyPoint>>)
    ensures fresh(result)
    ensures acePoints == [] ==> result.Counters() == [0, 0, 0, 0, 0, 0, 0, 0, 0] && result.errors == [] && calls == []
    ensures acePoints != [] ==>
              var refMap := RefMapOf(sink.points, show);
              var w := if dryRun then (0, 0, [])
                       else WritePhase(siteName, Creates(acePoints, refMap, sink.checkPoint),
                                       Updates(acePoints, refMap, sink.checkPoint), batchSize, sink);
              && result.Counters() == [0, 0, 0, 0, 0, 0, w.0, w.1, |Updates(acePoints, refMap, sink.checkPoint)|]
              && result.errors == Failures(acePoints, refMap, sink.checkPoint) + w.2
              && (!dryRun ==> calls == WriteCalls(Creates(acePoints, refMap, sink.checkPoint),
                                                  Updates(acePoints, refMap, sink.checkPoint), batchSize, sink))
    ensures dryRun ==> calls == []
  {
    result := new SyncResult();
    calls := [];
    if acePoints == [] {
      return;
    }
    var skysparkRefMap := BuildRefMap(sink.points, show);
    var pointsToCreate, pointsToUpdate := ClassifyPoints(acePoints, skysparkRefMap, sink.checkPoint, result);
    if !dryRun {
      calls := WritePoints(siteName, pointsToCreate, pointsToUpdate, batchSize, sink, result);
    }
  }
}
