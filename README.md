# Zone Transformer, modelled in Dafny

This project models the upload endpoint `pages/api/transform.js` of a small
GeoJSON converter. The endpoint takes two uploaded GeoJSON feature
collections and a city:

- **restricted zones**: every feature becomes one point record
  `{city, type, name, location: {type: 'Point', coordinates: [lng, lat]}, radius: 100}`.
  `type` is `amenity || leisure || 'unknown'`. `name` is `name || 'Unbekannt'`.
- **pedestrian zones**: every feature becomes a candidate
  `{city, type: 'pedestrian', geometry: {type: 'Polygon', coordinates}}`.
  Its coordinates are passed through unchanged. A stable filter then keeps only
  the candidates whose outer ring `coordinates[0]` has at least three points.

Around the transformation, the handler makes these decisions:

- any method other than POST gets 405;
- a missing file or an empty city gets 400;
- a file that is not valid JSON gets 400, and the error names that file;
- a lookup on a missing object during the transformation gets 500;
- otherwise the answer is 200, with a message stating both output counts.

The modules import one another, so all files are verified as one program:

- `wrappers.dfy` (`Wrappers`): `Option` (JavaScript `undefined`) and `Result`.
- `js_values.dfy` (`JsValues`): truthiness of a string-or-absent value, `||`,
  and `FirstTruthy`, the reference definition of a fallback chain.
- `decimal.dfy` (`Decimal`): how a template literal renders a count, and
  reading that rendering back.
- `zone_transform.dfy` (`ZoneTransform`): the data model, the restricted map,
  the pedestrian map and filter, and `Transform`.
- `handler.dfy` (`TransformHandler`): the request decision and the success
  message.
- `scenarios.dfy` (`Scenarios`): concrete features and requests.

Property values are `Option<string>`. `None` stands for `undefined`/`null`.
`Some("")` is falsy, like `None`. Coordinate values are an opaque type
parameter `C`, because they are only passed through. The JavaScript key
`type` is called `kind` in the records, since `type` is a Dafny keyword.
Each JavaScript TypeError that aborts the transformation is a `Fault` value.
Each names the lookup that failed.

The model follows the code's strict lookups:

- A restricted feature without `geometry`, `coordinates` or `properties`, or a
  pedestrian feature without `geometry`, is not given any default. The lookup
  throws and the whole request answers 500.
- A document without a `features` array also answers 500.
- A pedestrian feature whose `coordinates` is an empty array answers 500,
  because `coordinates[0].length` throws. It is not simply filtered out.
- The pedestrian map runs over all features before the filter starts. So a
  missing `geometry` anywhere is reported ahead of an unreadable outer ring in
  an earlier feature.

## Model

| member | source | states |
|---|---|---|
| `JsValues.FirstTruthy` | pages/api/transform.js:47-48 | Reference for a fallback chain: the first truthy candidate, or the fallback when none is truthy. Never empty when the fallback is not. |
| `JsValues.OrChainIsFirstTruthy` | pages/api/transform.js:47 | The chain `a`, then `b`, then the fallback, as JavaScript or-ing evaluates it, is defined, and it equals the first truthy of `a`, `b`, else the fallback. |
| `ZoneTransform.ResolveType` | pages/api/transform.js:47 | A record's type is the first truthy of amenity and leisure, else `'unknown'`. It is never empty. |
| `ZoneTransform.ResolveName` | pages/api/transform.js:48 | A record's name is `name` if truthy, else `'Unbekannt'`. It is never empty. |
| `ZoneTransform.ToRestrictedZone` | pages/api/transform.js:46-55 | One feature's record: fails exactly when geometry, coordinates or properties is missing, with the fault of the first missing lookup in source order. Otherwise the record holds the city, the resolved type and name, a `'Point'` of `[coords[0], coords[1]]` and radius 100. |
| `ZoneTransform.MapRestricted` | pages/api/transform.js:45-56 | The restricted map succeeds exactly when every feature has geometry, coordinates and properties. It then gives exactly one record per feature, with no filtering. |
| `ZoneTransform.MapRestrictedRecords` | pages/api/transform.js:45-56 | Record i is built from feature i: the city, the resolved type and name, a `'Point'` of `[coords[0], coords[1]]` and radius 100. A failure carries the fault of the first malformed feature. |
| `ZoneTransform.MapRestrictedAppend` | pages/api/transform.js:45-56 | The map of a concatenation is the concatenation of the maps, so order is kept. The first part's fault is reported first. |
| `ZoneTransform.MapRestrictedCons` | pages/api/transform.js:45-56 | One map step: the head feature's fault first, then the rest's fault, else the head's record before the rest's records. |
| `ZoneTransform.ToCandidate` | pages/api/transform.js:59-63 | One feature's candidate: fails with a missing-geometry fault exactly when `geometry` is absent. Otherwise it is a `'pedestrian'` record of the city whose `'Polygon'` carries the feature's coordinates unchanged. |
| `ZoneTransform.MapCandidates` | pages/api/transform.js:58-63 | The candidate map succeeds exactly when every feature has a geometry, and otherwise fails with a missing-geometry fault. On success there is one candidate per feature. |
| `ZoneTransform.MapCandidatesRecords` | pages/api/transform.js:58-63 | Candidate i is the `'pedestrian'` record of the city whose `'Polygon'` carries feature i's coordinates unchanged. |
| `ZoneTransform.MapCandidatesAppend` | pages/api/transform.js:58-63 | The candidate map of a concatenation is the concatenation of the candidate maps, so order is kept. The first part's fault is reported first. |
| `ZoneTransform.OuterRingSize` | pages/api/transform.js:65 | Reading `coordinates[0].length` gives the outer ring's length. Absent coordinates fail on `coordinates[0]`. An empty coordinates array fails on `.length` of the missing ring. The length is at least 3 exactly when the zone is a valid polygon. |
| `ZoneTransform.FilterValid` | pages/api/transform.js:64-70 | The filter fails exactly when some outer ring cannot be read. Otherwise it keeps at most as many zones, and every kept zone has an outer ring of 3 or more points. |
| `ZoneTransform.FilterValidKeepsAll` | pages/api/transform.js:64-70 | The filter keeps every zone if and only if every zone's outer ring has at least 3 points. |
| `ZoneTransform.FilterValidCounts` | pages/api/transform.js:64-70 | Counted as a multiset, each valid polygon is kept as often as it occurs, and invalid ones never appear. |
| `ZoneTransform.FilterValidAppend` | pages/api/transform.js:64-70 | The filter is stable: filtering a concatenation concatenates the filtered parts. The first part's fault is reported first. |
| `ZoneTransform.PedestrianZones` | pages/api/transform.js:58-70 | The map runs before the filter, so any missing geometry fails with that fault first. On success the result is no longer than the input, and every zone in it has an outer ring of 3 or more points. |
| `ZoneTransform.PedestrianZonesOutcome` | pages/api/transform.js:58-70 | Map then filter succeeds exactly when every outer ring is readable. Otherwise it fails on a missing geometry, missing coordinates or a missing outer ring. |
| `ZoneTransform.PedestrianZonesKept` | pages/api/transform.js:58-70 | On success, output length is at most the input length, with equality iff every ring has 3 or more points. Every kept zone is a valid pedestrian Polygon of the city carrying some input feature's coordinates. |
| `ZoneTransform.PedestrianZonesAppend` | pages/api/transform.js:58-70 | Map then filter succeeds on a concatenation iff it succeeds on both parts. Its zones are then the first part's zones followed by the second's. |
| `ZoneTransform.PedestrianZonesSingle` | pages/api/transform.js:58-70 | One feature is kept, as its Polygon record, exactly when its outer ring has at least 3 points. Otherwise it is dropped. |
| `ZoneTransform.Transform` | pages/api/transform.js:45-70 | Faults come in source order: a missing restricted `features`, then the restricted map's fault, then a missing pedestrian `features`, then the pedestrian pipeline's fault. It succeeds exactly when both documents have features and both pipelines succeed. Its output is then exactly the restricted map's records and the pedestrian pipeline's zones, so the record and zone lemmas above apply to it: one restricted record per feature, at most as many pedestrian zones as features, all of them valid, and the city on every record. |
| `Decimal.Render` | pages/api/transform.js:73 | A count renders as a non-empty string of digits with no leading zero. |
| `Decimal.ValueOfRender` | pages/api/transform.js:73 | Reading a rendered count back gives the count. |
| `Decimal.RenderInjective` | pages/api/transform.js:73 | Different counts render differently. |
| `TransformHandler.ReadFramedRender` | pages/api/transform.js:73 | Two rendered counts between fixed texts that do not start with a digit are read back exactly. |
| `TransformHandler.ReadCountsOfSuccessMessage` | pages/api/transform.js:72-76 | The two counts read back from the success message text are exactly the counts it was built from. |
| `TransformHandler.SuccessMessage` | pages/api/transform.js:73 | The message `Erfolgreich verarbeitet: n restricted-zones, m pedestrian-zones` reads back to exactly the counts n and m. |
| `TransformHandler.CityOf` | pages/api/transform.js:28 | The city is the field's value, or the first element when the field is a list. An absent field or an empty list gives no city. |
| `TransformHandler.FirstUpload` | pages/api/transform.js:25-26 | The upload used is the first one under the field name. There is none when the field is absent or empty. |
| `TransformHandler.InputsPresent` | pages/api/transform.js:29 | In terms of the raw fields: both file fields hold at least one upload, and the city field's value, or its first element for a list, is a non-empty string. |
| `TransformHandler.Handle` | pages/api/transform.js:11-78 | Any method other than POST answers exactly 405 with `'Nur POST-Anfragen erlaubt'`. For a POST: 400 with the fixed text when a file or the city is missing. Otherwise 400 naming the restricted file with its parser message when it is not JSON. Otherwise 400 naming the pedestrian file likewise. Otherwise 500 with the transformation's fault when it fails. Otherwise 200 with the success message and exactly the transformation's two lists. 500 happens only after both files parsed. On 200 the message reads back to both list lengths, there is one restricted record per feature, pedestrian zones are no more than features, and every record carries the request's city. |
| `Scenarios.TypeAndNameFallbacks` | pages/api/transform.js:47-48 | `{leisure:'park'}` gives `'park'`, also behind an empty amenity. Amenity wins over leisure. Neither gives `'unknown'`. A missing or empty name gives `'Unbekannt'`. |
| `Scenarios.RingThreshold` | pages/api/transform.js:64-70 | A 2-point outer ring is dropped. A 3-point ring is kept with its coordinates unchanged. |
| `Scenarios.InvalidJsonIsClientError` | pages/api/transform.js:34-38 | A restricted upload that is not JSON answers 400 with the message naming that file, whatever the pedestrian upload is. |
| `Scenarios.BankAndSquareTransform` | pages/api/transform.js:45-70 | A bank feature `Sparkasse` at `[6.77, 51.25]` and a 4-point pedestrian ring each give exactly one record, with the expected fields. |
| `Scenarios.EndToEnd` | pages/api/transform.js:45-76 | The same request answers 200 with both records, and its message reports 1 and 1. |

## Left out

- Multipart parsing with formidable and its Promise wrapper are not modelled. A request gives, for each file field, the list of uploads, plus the city field. A formidable parse error (also a 500) is not modelled.
- Reading a file and parsing it as JSON are not modelled. Each upload is given as the outcome: a document, or the parser's error message.
- TransformHandler.Handle: a 500 body carries the `Fault` that aborted the transformation. It does not carry the text `'Serverfehler: ' + error.message`, because the message is the JavaScript engine's own TypeError wording.
- The `console.warn` for dropped polygons is not modelled; it is a diagnostic side effect only.
- Serialising responses with `res.status(...).json(...)` is not modelled. A response is a status code and a body datatype.
- JSON values other than those the transformer expects are not modelled: property values that are not strings, coordinates or rings that are not arrays, and features that are not objects. For example, a string ring such as `"abc"` has `.length` 3 and is kept, a number ring has no `.length` and is dropped, and a `null` ring throws and answers 500.
- Coordinate values are never inspected, so floating point is not modelled.
- `pages/index.js` is browser UI code (form, fetch, download links, the 4.5 MB client-side size check) and is not part of this model.
