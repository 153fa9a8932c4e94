/** Concrete requests and features, checked against the model. */
module Scenarios {
  import opened Wrappers
  import opened ZoneTransform
  import opened TransformHandler

  /** `{leisure: 'park'}` is typed 'park'; with neither key the type is 'unknown' and the name is the placeholder. */
  lemma TypeAndNameFallbacks()
    ensures ResolveType(Properties(None, Some("park"), None)) == "park"
    ensures ResolveType(Properties(Some(""), Some("park"), None)) == "park"
    ensures ResolveType(Properties(Some("bank"), Some("park"), None)) == "bank"
    ensures ResolveType(Properties(None, None, None)) == "unknown"
    ensures ResolveName(Properties(None, None, None)) == "Unbekannt"
    ensures ResolveName(Properties(None, None, Some(""))) == "Unbekannt"
  {
  }

  function PolygonFeature(ring: Ring<int>): PedestrianFeature<int> {
    Feature(Some(Geometry(Some([ring]))), None)
  }

  /** An outer ring of two points is dropped; one of three points is kept with its coordinates unchanged. */
  lemma RingThreshold()
    ensures PedestrianZones("Köln", [PolygonFeature([[0, 0], [1, 1]])]) == Ok([])
    ensures PedestrianZones("Köln", [PolygonFeature([[0, 0], [1, 1], [1, 0]])])
            == Ok([PedestrianZone("Köln", "pedestrian", Polygon("Polygon", Some([[[0, 0], [1, 1], [1, 0]]])))])
  {
    var zone := PedestrianZone("Köln", "pedestrian", Polygon("Polygon", Some([[[0, 0], [1, 1], [1, 0]]])));
    assert [PolygonFeature([[0, 0], [1, 1], [1, 0]])][1..] == [];
    assert ToCandidate("Köln", PolygonFeature([[0, 0], [1, 1], [1, 0]])) == Ok(zone);
    assert MapCandidates<int>("Köln", []) == Ok([]);
    assert [zone] + [] == [zone];
    assert MapCandidates("Köln", [PolygonFeature([[0, 0], [1, 1], [1, 0]])]) == Ok([zone]);
    assert OuterRingSize(zone) == Ok(3);
    assert FilterValid([zone]) == Ok([zone]);
  }

  /** A restricted upload that is not JSON is a client error naming that file, not a server error. */
  lemma InvalidJsonIsClientError(pedestrian: Upload<seq<Ring<int>>>)
    ensures Handle(Request("POST", Some([Upload(Err("Unexpected token"))]), Some([pedestrian]), CityValues(["Köln"])))
            == Response(400, Failure("restricted-zones-raw.geojson ist kein gültiges JSON: Unexpected token"))
  {
  }

  /**
   * One bank and one pedestrian area with a four-point outer ring: both
   * lists hold one record and the message reports one of each.
   */
  lemma EndToEnd()
    ensures
      var req := Request("POST", Some([Upload(Ok(Collection(Some([Bank()]))))]),
                         Some([Upload(Ok(Collection(Some([Square()]))))]), CityValue("Düsseldorf"));
      && Handle(req) == Response(200, Processed(SuccessMessage(1, 1), [BankZone()], [SquareZone()]))
      && ReadCounts(Handle(req).body.message) == Some((1, 1))
  {
    BankAndSquareTransform();
  }

  /** The transformation of the bank and the square, record by record. */
  lemma BankAndSquareTransform()
    ensures Transform("Düsseldorf", Collection(Some([Bank()])), Collection(Some([Square()])))
            == Ok(Output([BankZone()], [SquareZone()]))
  {
    var bankZone, squareZone := BankZone(), SquareZone();
    assert ToRestrictedZone("Düsseldorf", Bank()) == Ok(bankZone);
    assert [Bank()][1..] == [];
    assert MapRestricted<real>("Düsseldorf", []) == Ok([]);
    assert [bankZone] + [] == [bankZone];
    assert MapRestricted("Düsseldorf", [Bank()]) == Ok([bankZone]);
    assert [Square()][1..] == [];
    assert ToCandidate("Düsseldorf", Square()) == Ok(squareZone);
    assert MapCandidates<real>("Düsseldorf", []) == Ok([]);
    assert [squareZone] + [] == [squareZone];
    assert MapCandidates("Düsseldorf", [Square()]) == Ok([squareZone]);
    assert OuterRingSize(squareZone) == Ok(4);
    assert FilterValid([squareZone]) == Ok([squareZone]);
    assert PedestrianZones("Düsseldorf", [Square()]) == Ok([squareZone]);
  }

  function BankZone(): RestrictedZone<real> {
    RestrictedZone("Düsseldorf", "bank", "Sparkasse", Point("Point", [Some(6.77), Some(51.25)]), 100)
  }

  function SquareZone(): PedestrianZone<real> {
    PedestrianZone("Düsseldorf", "pedestrian", Polygon("Polygon", Some([SquareRing()])))
  }

  function Bank(): RestrictedFeature<real> {
    Feature(Some(Geometry(Some([6.77, 51.25]))), Some(Properties(Some("bank"), None, Some("Sparkasse"))))
  }

  function SquareRing(): Ring<real> {
    [[0.0, 0.0], [1.0, 0.0], [1.0, 1.0], [0.0, 0.0]]
  }

  function Square(): PedestrianFeature<real> {
    Feature(Some(Geometry(Some([SquareRing()]))), None)
  }
}
