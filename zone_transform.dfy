/**
 * The Zone Transformer: turns the features of a restricted-zones collection
 * into point records with a fixed radius, and the features of a
 * pedestrian-zones collection into polygon records, dropping polygons whose
 * outer ring has fewer than three points.
 *
 * Property lookups on an absent object throw a TypeError in the handler; such
 * a throw aborts the whole transformation and is modelled as a `Fault`.
 */
module ZoneTransform {
  import opened Wrappers
  import opened JsValues

  /** Which lookup on an absent value aborted the transformation. */
  datatype Fault =
    | FeaturesMissing     // `features` is absent, so there is no `.map` to call
    | GeometryMissing     // `feature.geometry` is absent
    | CoordinatesMissing  // `geometry.coordinates` is absent: nothing to destructure or index
    | PropertiesMissing   // `feature.properties` is absent
    | OuterRingMissing    // `coordinates[0]` is absent, so it has no `.length`

  /** The three feature properties the transformer reads. */
  datatype Properties = Properties(amenity: Option<string>, leisure: Option<string>, name: Option<string>)

  datatype Geometry<G> = Geometry(coordinates: Option<G>)

  /** A GeoJSON feature whose coordinates have shape G; either part may be absent. */
  datatype Feature<G> = Feature(geometry: Option<Geometry<G>>, properties: Option<Properties>)

  /** A parsed GeoJSON document; `features` is absent when it is not an array. */
  datatype Collection<G> = Collection(features: Option<seq<Feature<G>>>)

  /** A position (`[lng, lat]`) and a ring of positions; coordinate values are never inspected. */
  type Position<C> = seq<C>
  type Ring<C> = seq<Position<C>>

  /** A restricted-zone feature carries a single position; a pedestrian-zone feature carries rings. */
  type RestrictedFeature<C> = Feature<Position<C>>
  type PedestrianFeature<C> = Feature<seq<Ring<C>>>

  /** `{type: 'Point', coordinates: [lng, lat]}`; an entry is `undefined` when the input position is short. */
  datatype Point<C> = Point(kind: string, coordinates: seq<Option<C>>)

  /** `{city, type, name, location, radius}`. */
  datatype RestrictedZone<C> = RestrictedZone(city: string, kind: string, name: string, location: Point<C>, radius: nat)

  /** `{type: 'Polygon', coordinates}`, the coordinates taken over unchanged (possibly `undefined`). */
  datatype Polygon<C> = Polygon(kind: string, coordinates: Option<seq<Ring<C>>>)

  /** `{city, type: 'pedestrian', geometry}`. */
  datatype PedestrianZone<C> = PedestrianZone(city: string, kind: string, geometry: Polygon<C>)

  /** Both output lists of one transformation. */
  datatype Output<C> = Output(restrictedZones: seq<RestrictedZone<C>>, pedestrianZones: seq<PedestrianZone<C>>)

  const Radius: nat := 100
  const UnknownType := "unknown"
  const UnknownName := "Unbekannt"
  const PointKind := "Point"
  const PedestrianKind := "pedestrian"
  const PolygonKind := "Polygon"
  const MinRingPoints: nat := 3

  // ---------------------------------------------------------------------------
  // Restricted zones
  // ---------------------------------------------------------------------------

  /** `properties.amenity || properties.leisure || 'unknown'`. */
  function ResolveType(p: Properties): (r: string)
    ensures r == FirstTruthy([p.amenity, p.leisure], UnknownType)
    ensures r != ""
  {
    OrChainIsFirstTruthy(p.amenity, p.leisure, UnknownType);
    Or(Or(p.amenity, p.leisure), Some(UnknownType)).value
  }

  /** `properties.name || 'Unbekannt'`. */
  function ResolveName(p: Properties): (r: string)
    ensures r == FirstTruthy([p.name], UnknownName)
    ensures r != ""
  {
    Or(p.name, Some(UnknownName)).value
  }

  /** `s[i]` in JavaScript: `undefined` past the end. */
  function At<C>(s: seq<C>, i: nat): Option<C> {
    if i < |s| then Some(s[i]) else None
  }

  /** The fault converting `f` into a restricted record raises, in the order the lookups happen. */
  function RestrictedFault<C>(f: RestrictedFeature<C>): Option<Fault> {
    if f.geometry.None? then Some(GeometryMissing)
    else if f.geometry.value.coordinates.None? then Some(CoordinatesMissing)
    else if f.properties.None? then Some(PropertiesMissing)
    else None
  }

  /** One step of the restricted map. */
  function ToRestrictedZone<C>(city: string, f: RestrictedFeature<C>): (r: Result<RestrictedZone<C>, Fault>)
    ensures r.Ok? <==> RestrictedFault(f).None?
    ensures r.Err? ==> RestrictedFault(f) == Some(r.error)
    ensures r.Ok? ==> IsRestrictedRecordOf(r.value, city, f)
  {
    match RestrictedFault(f)
    case Some(fault) => Err(fault)
    case None =>
      var position := f.geometry.value.coordinates.value;
      var props := f.properties.value;
      Ok(RestrictedZone(city, ResolveType(props), ResolveName(props),
                        Point(PointKind, [At(position, 0), At(position, 1)]), Radius))
  }

  /**
   * What the restricted record of a well-formed feature holds, field by field:
   * the city, the first truthy of amenity and leisure, the name or its
   * placeholder, the first two coordinates as a Point, and the fixed radius.
   */
  ghost predicate IsRestrictedRecordOf<C>(z: RestrictedZone<C>, city: string, f: RestrictedFeature<C>)
    requires RestrictedFault(f).None?
  {
    var position := f.geometry.value.coordinates.value;
    var props := f.properties.value;
    && z.city == city
    && z.kind == FirstTruthy([props.amenity, props.leisure], UnknownType)
    && z.name == FirstTruthy([props.name], UnknownName)
    && z.location.kind == PointKind
    && z.location.coordinates == [At(position, 0), At(position, 1)]
    && |z.location.coordinates| == 2
    && z.radius == Radius
  }

  /**
   * `features.map(...)` for restricted zones: one record per feature, in
   * order, no filtering; aborts with the fault of the first malformed feature.
   */
  function MapRestricted<C>(city: string, features: seq<RestrictedFeature<C>>): (r: Result<seq<RestrictedZone<C>>, Fault>)
    ensures r.Ok? <==> forall i :: 0 <= i < |features| ==> RestrictedFault(features[i]).None?
    ensures r.Ok? ==> |r.value| == |features|
  {
    if features == [] then Ok([])
    else
      var head :- ToRestrictedZone(city, features[0]);
      var tail :- MapRestricted(city, features[1..]);
      Ok([head] + tail)
  }

  /**
   * Every restricted record is built from the feature at the same index; a
   * failed map reports the fault of the first malformed feature.
   */
  lemma {:induction false} MapRestrictedRecords<C>(city: string, features: seq<RestrictedFeature<C>>)
    ensures MapRestricted(city, features).Ok? ==>
              forall i :: 0 <= i < |features| ==> IsRestrictedRecordOf(MapRestricted(city, features).value[i], city, features[i])
    ensures MapRestricted(city, features).Err? ==>
              exists i :: 0 <= i < |features| && RestrictedFault(features[i]) == Some(MapRestricted(city, features).error)
                          && forall j :: 0 <= j < i ==> RestrictedFault(features[j]).None?
  {
    if features != [] {
      MapRestrictedRecords(city, features[1..]);
      assert features == [features[0]] + features[1..];
      MapRestrictedCons(city, features[0], features[1..]);
      var r := MapRestricted(city, features);
      if r.Ok? {
        var tail := MapRestricted(city, features[1..]).value;
        assert r.value == [ToRestrictedZone(city, features[0]).value] + tail;
        forall i | 0 <= i < |features|
          ensures IsRestrictedRecordOf(r.value[i], city, features[i])
        {
          if i > 0 {
            assert features[i] == features[1..][i - 1];
            assert r.value[i] == tail[i - 1];
          }
        }
      } else if RestrictedFault(features[0]).None? {
        var i :| 0 <= i < |features[1..]| && RestrictedFault(features[1..][i]) == Some(MapRestricted(city, features[1..]).error)
                 && forall j :: 0 <= j < i ==> RestrictedFault(features[1..][j]).None?;
        assert forall j :: 1 <= j < i + 1 ==> features[j] == features[1..][j - 1];
        assert RestrictedFault(features[i + 1]) == Some(r.error);
      } else {
        assert RestrictedFault(features[0]) == Some(r.error);
      }
    }
  }

  /**
   * The restricted map works feature by feature: on a concatenation it
   * reports the first part's fault first, and otherwise concatenates.
   */
  lemma {:induction false} MapRestrictedAppend<C>(city: string, a: seq<RestrictedFeature<C>>, b: seq<RestrictedFeature<C>>)
    ensures MapRestricted(city, a + b) ==
              if MapRestricted(city, a).Err? then MapRestricted(city, a)
              else if MapRestricted(city, b).Err? then MapRestricted(city, b)
              else Ok(MapRestricted(city, a).value + MapRestricted(city, b).value)
  {
    if a == [] {
      assert a + b == b;
      assert MapRestricted(city, b).Ok? ==> MapRestricted(city, a).value + MapRestricted(city, b).value == MapRestricted(city, b).value;
    } else {
      var rest := a[1..] + b;
      assert a + b == [a[0]] + rest;
      assert a == [a[0]] + a[1..];
      MapRestrictedAppend(city, a[1..], b);
      MapRestrictedCons(city, a[0], rest);
      MapRestrictedCons(city, a[0], a[1..]);
      var head, ta, tb := ToRestrictedZone(city, a[0]), MapRestricted(city, a[1..]), MapRestricted(city, b);
      if head.Err? {
        assert MapRestricted(city, a + b) == Err(head.error) == MapRestricted(city, a);
      } else if ta.Err? {
        assert MapRestricted(city, a + b) == ta == MapRestricted(city, a);
      } else if tb.Err? {
        assert MapRestricted(city, a + b) == tb;
      } else {
        assert [head.value] + (ta.value + tb.value) == ([head.value] + ta.value) + tb.value;
      }
    }
  }

  /** One step of the restricted map: the head's fault, else the tail's, else the head record before the tail's. */
  lemma MapRestrictedCons<C>(city: string, f: RestrictedFeature<C>, rest: seq<RestrictedFeature<C>>)
    ensures MapRestricted(city, [f] + rest) ==
              if ToRestrictedZone(city, f).Err? then Err(ToRestrictedZone(city, f).error)
              else if MapRestricted(city, rest).Err? then MapRestricted(city, rest)
              else Ok([ToRestrictedZone(city, f).value] + MapRestricted(city, rest).value)
  {
    assert ([f] + rest)[0] == f;
    assert ([f] + rest)[1..] == rest;
  }

  // ---------------------------------------------------------------------------
  // Pedestrian zones
  // ---------------------------------------------------------------------------

  /** One step of the pedestrian map: wraps the coordinates, unchanged, as a Polygon. */
  function ToCandidate<C>(city: string, f: PedestrianFeature<C>): (r: Result<PedestrianZone<C>, Fault>)
    ensures r.Ok? <==> f.geometry.Some?
    ensures r.Err? ==> r.error == GeometryMissing
    ensures r.Ok? ==> && r.value.city == city
                      && r.value.kind == PedestrianKind
                      && r.value.geometry.kind == PolygonKind
                      && r.value.geometry.coordinates == f.geometry.value.coordinates
  {
    if f.geometry.None? then Err(GeometryMissing)
    else Ok(PedestrianZone(city, PedestrianKind, Polygon(PolygonKind, f.geometry.value.coordinates)))
  }

  /** `features.map(...)` for pedestrian zones: one candidate per feature, in order. */
  function MapCandidates<C>(city: string, features: seq<PedestrianFeature<C>>): (r: Result<seq<PedestrianZone<C>>, Fault>)
    ensures r.Ok? <==> forall i :: 0 <= i < |features| ==> features[i].geometry.Some?
    ensures r.Err? ==> r.error == GeometryMissing
    ensures r.Ok? ==> |r.value| == |features|
  {
    if features == [] then Ok([])
    else
      var head :- ToCandidate(city, features[0]);
      var tail :- MapCandidates(city, features[1..]);
      Ok([head] + tail)
  }

  /**
   * Candidate i is the pedestrian Polygon of the city carrying feature i's
   * coordinates unchanged.
   */
  lemma {:induction false} MapCandidatesRecords<C>(city: string, features: seq<PedestrianFeature<C>>)
    requires MapCandidates(city, features).Ok?
    ensures forall i :: 0 <= i < |features| ==>
              MapCandidates(city, features).value[i]
              == PedestrianZone(city, PedestrianKind, Polygon(PolygonKind, features[i].geometry.value.coordinates))
  {
    if features != [] {
      MapCandidatesRecords(city, features[1..]);
      forall i | 1 <= i < |features|
        ensures features[i] == features[1..][i - 1]
      {
      }
    }
  }

  /** The candidate map of a concatenation: the first part's fault first, otherwise the concatenated candidates. */
  lemma {:induction false} MapCandidatesAppend<C>(city: string, a: seq<PedestrianFeature<C>>, b: seq<PedestrianFeature<C>>)
    ensures MapCandidates(city, a + b) ==
              if MapCandidates(city, a).Err? then MapCandidates(city, a)
              else if MapCandidates(city, b).Err? then MapCandidates(city, b)
              else Ok(MapCandidates(city, a).value + MapCandidates(city, b).value)
  {
    if a == [] {
      assert a + b == b;
      assert MapCandidates(city, b).Ok? ==> MapCandidates(city, a).value + MapCandidates(city, b).value == MapCandidates(city, b).value;
    } else {
      assert (a + b)[0] == a[0];
      assert (a + b)[1..] == a[1..] + b;
      MapCandidatesAppend(city, a[1..], b);
      if ToCandidate(city, a[0]).Ok? && MapCandidates(city, a[1..]).Ok? && MapCandidates(city, b).Ok? {
        var head := ToCandidate(city, a[0]).value;
        var ta, tb := MapCandidates(city, a[1..]).value, MapCandidates(city, b).value;
        assert MapCandidates(city, a[1..] + b) == Ok(ta + tb);
        assert MapCandidates(city, a) == Ok([head] + ta);
        assert MapCandidates(city, a + b) == Ok([head] + (ta + tb));
        assert [head] + (ta + tb) == ([head] + ta) + tb;
      }
    }
  }

  /** `zone.geometry.coordinates[0].length`, or the fault reading it raises. */
  function OuterRingSize<C>(z: PedestrianZone<C>): (r: Result<nat, Fault>)
    ensures r.Ok? <==> HasOuterRing(z)
    ensures r.Err? ==> r.error == CoordinatesMissing || r.error == OuterRingMissing
    ensures r.Ok? ==> (r.value >= MinRingPoints <==> IsValidPolygon(z))
    ensures z.geometry.coordinates.None? ==> r == Err(CoordinatesMissing)
    ensures z.geometry.coordinates == Some([]) ==> r == Err(OuterRingMissing)
    ensures HasOuterRing(z) ==> r == Ok(|z.geometry.coordinates.value[0]|)
  {
    match z.geometry.coordinates
    case None => Err(CoordinatesMissing)
    case Some(rings) => if rings == [] then Err(OuterRingMissing) else Ok(|rings[0]|)
  }

  /** The outer ring can be read. */
  predicate HasOuterRing<C>(z: PedestrianZone<C>) {
    z.geometry.coordinates.Some? && z.geometry.coordinates.value != []
  }

  /** The filter keeps the zone: its outer ring has at least three points. */
  predicate IsValidPolygon<C>(z: PedestrianZone<C>) {
    HasOuterRing(z) && |z.geometry.coordinates.value[0]| >= MinRingPoints
  }

  /**
   * `.filter(zone => zone.geometry.coordinates[0].length >= 3)`: keeps the
   * valid polygons and drops the others; aborts when some outer ring cannot
   * be read.
   */
  function FilterValid<C>(zones: seq<PedestrianZone<C>>): (r: Result<seq<PedestrianZone<C>>, Fault>)
    ensures r.Ok? <==> forall i :: 0 <= i < |zones| ==> HasOuterRing(zones[i])
    ensures r.Err? ==> r.error == CoordinatesMissing || r.error == OuterRingMissing
    ensures r.Ok? ==> |r.value| <= |zones|
    ensures r.Ok? ==> forall k :: 0 <= k < |r.value| ==> IsValidPolygon(r.value[k])
  {
    if zones == [] then Ok([])
    else
      var size :- OuterRingSize(zones[0]);
      var tail :- FilterValid(zones[1..]);
      if size >= MinRingPoints then Ok([zones[0]] + tail) else Ok(tail)
  }

  /** Nothing is dropped exactly when every zone is a valid polygon. */
  lemma {:induction false} FilterValidKeepsAll<C>(zones: seq<PedestrianZone<C>>)
    requires FilterValid(zones).Ok?
    ensures |FilterValid(zones).value| == |zones| <==> forall i :: 0 <= i < |zones| ==> IsValidPolygon(zones[i])
  {
    if zones != [] {
      FilterValidKeepsAll(zones[1..]);
      if !IsValidPolygon(zones[0]) {
        assert |FilterValid(zones).value| < |zones|;
      } else {
        assert forall i :: 1 <= i < |zones| ==> zones[i] == zones[1..][i - 1];
      }
    }
  }

  /**
   * The filter keeps every occurrence of a valid polygon and nothing else:
   * as a multiset, its result is the valid part of its input.
   */
  lemma {:induction false} FilterValidCounts<C>(zones: seq<PedestrianZone<C>>, z: PedestrianZone<C>)
    requires FilterValid(zones).Ok?
    ensures multiset(FilterValid(zones).value)[z] == if IsValidPolygon(z) then multiset(zones)[z] else 0
  {
    if zones != [] {
      FilterValidCounts(zones[1..], z);
      assert zones == [zones[0]] + zones[1..];
    }
  }

  /**
   * The filter is stable: on a concatenation it reports the first part's
   * fault first, and otherwise concatenates what each part keeps.
   */
  lemma {:induction false} FilterValidAppend<C>(a: seq<PedestrianZone<C>>, b: seq<PedestrianZone<C>>)
    ensures FilterValid(a + b) ==
              if FilterValid(a).Err? then FilterValid(a)
              else if FilterValid(b).Err? then FilterValid(b)
              else Ok(FilterValid(a).value + FilterValid(b).value)
  {
    if a == [] {
      assert a + b == b;
      assert FilterValid(b).Ok? ==> FilterValid(a).value + FilterValid(b).value == FilterValid(b).value;
    } else {
      assert (a + b)[0] == a[0];
      assert (a + b)[1..] == a[1..] + b;
      FilterValidAppend(a[1..], b);
      if OuterRingSize(a[0]).Ok? && FilterValid(a[1..]).Ok? && FilterValid(b).Ok? {
        var ta, tb := FilterValid(a[1..]).value, FilterValid(b).value;
        assert FilterValid(a[1..] + b) == Ok(ta + tb);
        if OuterRingSize(a[0]).value >= MinRingPoints {
          assert FilterValid(a) == Ok([a[0]] + ta);
          assert FilterValid(a + b) == Ok([a[0]] + (ta + tb));
          assert [a[0]] + (ta + tb) == ([a[0]] + ta) + tb;
        } else {
          assert FilterValid(a) == Ok(ta);
          assert FilterValid(a + b) == Ok(ta + tb);
        }
      }
    }
  }

  /** Pedestrian zones: map every feature to a candidate, then filter the candidates. */
  function PedestrianZones<C>(city: string, features: seq<PedestrianFeature<C>>): (r: Result<seq<PedestrianZone<C>>, Fault>)
    ensures MapCandidates(city, features).Err? ==> r == Err(GeometryMissing)
    ensures r.Ok? ==> |r.value| <= |features|
    ensures r.Ok? ==> forall k :: 0 <= k < |r.value| ==> IsValidPolygon(r.value[k])
  {
    var candidates :- MapCandidates(city, features);
    FilterValid(candidates)
  }

  /**
   * The outer ring of a pedestrian feature can be read. This is `HasOuterRing`
   * of the feature's candidate, stated on the uploaded feature so that the
   * pipeline lemmas below speak about their input.
   */
  predicate FeatureHasOuterRing<C>(f: PedestrianFeature<C>) {
    && f.geometry.Some?
    && f.geometry.value.coordinates.Some?
    && f.geometry.value.coordinates.value != []
  }

  /** The feature's outer ring has at least three points: `IsValidPolygon` of its candidate. */
  predicate FeatureIsValidPolygon<C>(f: PedestrianFeature<C>) {
    FeatureHasOuterRing(f) && |f.geometry.value.coordinates.value[0]| >= MinRingPoints
  }

  /**
   * The pedestrian pipeline succeeds exactly when every outer ring can be
   * read; otherwise it fails on a missing geometry, coordinates or outer ring.
   */
  lemma PedestrianZonesOutcome<C>(city: string, features: seq<PedestrianFeature<C>>)
    ensures PedestrianZones(city, features).Ok? <==> forall i :: 0 <= i < |features| ==> FeatureHasOuterRing(features[i])
    ensures PedestrianZones(city, features).Err? ==>
              PedestrianZones(city, features).error in {GeometryMissing, CoordinatesMissing, OuterRingMissing}
  {
    var m := MapCandidates(city, features);
    if m.Ok? {
      MapCandidatesRecords(city, features);
      assert forall i :: 0 <= i < |features| ==> (HasOuterRing(m.value[i]) <==> FeatureHasOuterRing(features[i]));
    } else {
      var i :| 0 <= i < |features| && features[i].geometry.None?;
      assert !FeatureHasOuterRing(features[i]);
    }
  }

  /**
   * What a successful pedestrian pipeline keeps: at most as many zones as
   * there are features, all of them when every outer ring has three or more
   * points; every kept zone is a valid pedestrian Polygon of the city whose
   * coordinates are those of some input feature.
   */
  lemma PedestrianZonesKept<C>(city: string, features: seq<PedestrianFeature<C>>)
    requires PedestrianZones(city, features).Ok?
    ensures var kept := PedestrianZones(city, features).value;
            && |kept| <= |features|
            && (|kept| == |features| <==> forall i :: 0 <= i < |features| ==> FeatureIsValidPolygon(features[i]))
            && forall k :: 0 <= k < |kept| ==>
                 && IsValidPolygon(kept[k])
                 && kept[k].city == city
                 && kept[k].kind == PedestrianKind
                 && kept[k].geometry.kind == PolygonKind
                 && exists i :: 0 <= i < |features| && kept[k].geometry.coordinates == features[i].geometry.value.coordinates
  {
    var candidates := MapCandidates(city, features).value;
    MapCandidatesRecords(city, features);
    assert forall i :: 0 <= i < |features| ==> (IsValidPolygon(candidates[i]) <==> FeatureIsValidPolygon(features[i]));
    var kept := FilterValid(candidates).value;
    FilterValidKeepsAll(candidates);
    forall k | 0 <= k < |kept|
      ensures exists i :: 0 <= i < |features| && kept[k] == candidates[i]
    {
      FilterValidCounts(candidates, kept[k]);
      assert kept[k] in multiset(kept);
      assert kept[k] in candidates;
    }
  }

  /**
   * The pedestrian pipeline is stable: when both parts succeed, the zones of
   * a concatenation are the zones of the first part followed by those of the
   * second; and it succeeds on a concatenation exactly when it does on both.
   */
  lemma PedestrianZonesAppend<C>(city: string, a: seq<PedestrianFeature<C>>, b: seq<PedestrianFeature<C>>)
    ensures PedestrianZones(city, a + b).Ok? <==> PedestrianZones(city, a).Ok? && PedestrianZones(city, b).Ok?
    ensures PedestrianZones(city, a + b).Ok? ==>
              PedestrianZones(city, a + b).value == PedestrianZones(city, a).value + PedestrianZones(city, b).value
  {
    MapCandidatesAppend(city, a, b);
    var ma, mb := MapCandidates(city, a), MapCandidates(city, b);
    if ma.Ok? && mb.Ok? {
      FilterValidAppend(ma.value, mb.value);
    }
  }

  /**
   * A single feature: kept, as its Polygon record, exactly when its outer
   * ring has at least three points. With PedestrianZonesAppend this fixes
   * the output of any list of well-formed features.
   */
  lemma PedestrianZonesSingle<C>(city: string, f: PedestrianFeature<C>)
    requires FeatureHasOuterRing(f)
    ensures PedestrianZones(city, [f]) ==
              if FeatureIsValidPolygon(f)
              then Ok([PedestrianZone(city, PedestrianKind, Polygon(PolygonKind, f.geometry.value.coordinates))])
              else Ok([])
  {
    var zone := PedestrianZone(city, PedestrianKind, Polygon(PolygonKind, f.geometry.value.coordinates));
    assert [f][1..] == [];
    assert MapCandidates<C>(city, []) == Ok([]);
    assert [zone] + [] == [zone];
    assert MapCandidates(city, [f]) == Ok([zone]);
    assert [zone][1..] == [];
    assert FilterValid<C>([]) == Ok([]);
    if FeatureIsValidPolygon(f) {
      assert FilterValid([zone]) == Ok([zone]);
    } else {
      assert FilterValid([zone]) == Ok([]);
    }
  }

  // ---------------------------------------------------------------------------
  // The whole transformation
  // ---------------------------------------------------------------------------

  /**
   * Restricted zones first, then pedestrian zones; the first fault aborts
   * the transformation.
   */
  function Transform<C>(city: string, restrictedRaw: Collection<Position<C>>, pedestrianRaw: Collection<seq<Ring<C>>>)
    : (r: Result<Output<C>, Fault>)
    ensures r.Ok? <==>
              && restrictedRaw.features.Some?
              && (forall i :: 0 <= i < |restrictedRaw.features.value| ==> RestrictedFault(restrictedRaw.features.value[i]).None?)
              && pedestrianRaw.features.Some?
              && PedestrianZones(city, pedestrianRaw.features.value).Ok?
    ensures restrictedRaw.features.None? ==> r == Err(FeaturesMissing)
    ensures restrictedRaw.features.Some? && MapRestricted(city, restrictedRaw.features.value).Err? ==>
              r == Err(MapRestricted(city, restrictedRaw.features.value).error)
    ensures restrictedRaw.features.Some? && MapRestricted(city, restrictedRaw.features.value).Ok? ==>
              && (pedestrianRaw.features.None? ==> r == Err(FeaturesMissing))
              && (pedestrianRaw.features.Some? && PedestrianZones(city, pedestrianRaw.features.value).Err? ==>
                    r == Err(PedestrianZones(city, pedestrianRaw.features.value).error))
    ensures r.Ok? ==> r.value == Output(MapRestricted(city, restrictedRaw.features.value).value,
                                        PedestrianZones(city, pedestrianRaw.features.value).value)
    ensures r.Ok? ==> |r.value.restrictedZones| == |restrictedRaw.features.value|
    ensures r.Ok? ==> |r.value.pedestrianZones| <= |pedestrianRaw.features.value|
    ensures r.Ok? ==> forall k :: 0 <= k < |r.value.pedestrianZones| ==> IsValidPolygon(r.value.pedestrianZones[k])
    ensures r.Ok? ==> forall k :: 0 <= k < |r.value.restrictedZones| ==> r.value.restrictedZones[k].city == city
    ensures r.Ok? ==> forall k :: 0 <= k < |r.value.pedestrianZones| ==> r.value.pedestrianZones[k].city == city
  {
    if restrictedRaw.features.None? then Err(FeaturesMissing)
    else
      MapRestrictedRecords(city, restrictedRaw.features.value);
      var restricted :- MapRestricted(city, restrictedRaw.features.value);
      if pedestrianRaw.features.None? then Err(FeaturesMissing)
      else
        var pedestrian :- PedestrianZones(city, pedestrianRaw.features.value);
        PedestrianZonesKept(city, pedestrianRaw.features.value);
        Ok(Output(restricted, pedestrian))
  }
}
