/**
 * The request handler around the Zone Transformer: rejects anything but
 * POST, checks that both uploads and a city are present, reports which
 * upload is not valid JSON, runs the transformation and answers with a
 * status code and a body.
 *
 * Multipart parsing, file reading and JSON parsing are not modelled: each
 * upload is given as the outcome of reading and parsing it.
 */
module TransformHandler {
  import opened Wrappers
  import opened JsValues
  import opened Decimal
  import opened ZoneTransform

  /** `fields['city']`: absent, a single value, or the array a multi-valued field becomes. */
  datatype CityField = NoCity | CityValue(value: string) | CityValues(values: seq<string>)

  /** An uploaded file, given by what reading and JSON-parsing it yields: a document or the parser's message. */
  datatype Upload<G> = Upload(parsed: Result<Collection<G>, string>)

  /** The parts of a request the handler looks at; each file field holds the uploads under that name, if any. */
  datatype Request<C> = Request(
    httpMethod: string,
    restrictedUploads: Option<seq<Upload<Position<C>>>>,
    pedestrianUploads: Option<seq<Upload<seq<Ring<C>>>>>,
    city: CityField)

  /** A JSON body: an error text, a server fault, or the processed zones with a summary message. */
  datatype Body<C> =
    | Failure(error: string)
    | ServerFault(fault: Fault)
    | Processed(message: string, restrictedZones: seq<RestrictedZone<C>>, pedestrianZones: seq<PedestrianZone<C>>)

  datatype Response<C> = Response(status: nat, body: Body<C>)

  const MethodNotAllowedText := "Nur POST-Anfragen erlaubt"
  const MissingInputText := "Bitte beide Dateien hochladen und eine Stadt angeben"
  const RestrictedJsonText := "restricted-zones-raw.geojson ist kein gültiges JSON: "
  const PedestrianJsonText := "pedestrian-zones-raw.geojson ist kein gültiges JSON: "
  const MessagePrefix := "Erfolgreich verarbeitet: "
  const MessageMiddle := " restricted-zones, "
  const MessageSuffix := " pedestrian-zones"

  /** `Array.isArray(v) ? v[0] : v` for the city field: a list yields its first value, if any. */
  function CityOf(field: CityField): (city: Option<string>)
    ensures field.NoCity? ==> city.None?
    ensures field.CityValue? ==> city == Some(field.value)
    ensures field.CityValues? ==> (city.Some? <==> field.values != [])
    ensures field.CityValues? && city.Some? ==> city.value == field.values[0]
  {
    match field
    case NoCity => None
    case CityValue(s) => Some(s)
    case CityValues(values) => if values == [] then None else Some(values[0])
  }

  /** `files[name]?.[0]`: the first upload under a name, if any. */
  function FirstUpload<G>(uploads: Option<seq<Upload<G>>>): (first: Option<Upload<G>>)
    ensures first.Some? <==> uploads.Some? && uploads.value != []
    ensures first.Some? ==> first.value == uploads.value[0]
  {
    match uploads
    case None => None
    case Some(list) => if list == [] then None else Some(list[0])
  }

  /** Both files were uploaded and the city is a non-empty string. */
  predicate InputsPresent<C>(req: Request<C>): (present: bool)
    ensures present <==>
              && req.restrictedUploads.Some? && req.restrictedUploads.value != []
              && req.pedestrianUploads.Some? && req.pedestrianUploads.value != []
              && match req.city
                 case NoCity => false
                 case CityValue(s) => s != ""
                 case CityValues(values) => values != [] && values[0] != ""
  {
    && FirstUpload(req.restrictedUploads).Some?
    && FirstUpload(req.pedestrianUploads).Some?
    && Truthy(CityOf(req.city))
  }

  /** The success message, stating both counts in decimal. */
  function SuccessMessage(restrictedCount: nat, pedestrianCount: nat): (message: string)
    ensures ReadCounts(message) == Some((restrictedCount, pedestrianCount))
  {
    ReadCountsOfSuccessMessage(restrictedCount, pedestrianCount);
    MessagePrefix + (Render(restrictedCount) + (MessageMiddle + (Render(pedestrianCount) + MessageSuffix)))
  }

  /** What is left of `text` after `prefix`, if it starts with `prefix`. */
  function AfterPrefix(prefix: string, text: string): Option<string> {
    if |prefix| <= |text| && text[..|prefix|] == prefix then Some(text[|prefix|..]) else None
  }

  /** The number written at the start of `text` and what follows it, if `text` starts with a digit. */
  function ReadNat(text: string): Option<(nat, string)> {
    var k := DigitRun(text);
    if k == 0 then None else Some((ValueOf(text[..k]), text[k..]))
  }

  /**
   * Reads two counts back from a text of the form prefix, numeral, middle,
   * numeral, suffix.
   */
  function ReadFramed(prefix: string, middle: string, suffix: string, message: string): Option<(nat, nat)> {
    match AfterPrefix(prefix, message)
    case None => None
    case Some(s) =>
      match ReadNat(s)
      case None => None
      case Some((first, t)) =>
        match AfterPrefix(middle, t)
        case None => None
        case Some(u) =>
          match ReadNat(u)
          case None => None
          case Some((second, rest)) => if rest == suffix then Some((first, second)) else None
  }

  /** Reads the two counts back from a success message. */
  function ReadCounts(message: string): Option<(nat, nat)> {
    ReadFramed(MessagePrefix, MessageMiddle, MessageSuffix, message)
  }

  lemma AfterPrefixOfConcat(prefix: string, rest: string)
    ensures AfterPrefix(prefix, prefix + rest) == Some(rest)
  {
    assert (prefix + rest)[..|prefix|] == prefix;
    assert (prefix + rest)[|prefix|..] == rest;
  }

  /** A rendered count followed by a non-digit is read back as that count, leaving the rest. */
  lemma ReadNatOfRender(n: nat, rest: string)
    requires rest == [] || !IsDigit(rest[0])
    ensures ReadNat(Render(n) + rest) == Some((n, rest))
  {
    var s := Render(n) + rest;
    DigitRunOfNumeral(Render(n), rest);
    assert s[..|Render(n)|] == Render(n);
    assert s[|Render(n)|..] == rest;
    ValueOfRender(n);
  }

  /**
   * Two rendered counts framed by texts that do not start with a digit are
   * read back exactly.
   */
  lemma ReadFramedRender(prefix: string, middle: string, suffix: string, first: nat, second: nat)
    requires middle != [] && !IsDigit(middle[0])
    requires suffix == [] || !IsDigit(suffix[0])
    ensures ReadFramed(prefix, middle, suffix, prefix + (Render(first) + (middle + (Render(second) + suffix))))
            == Some((first, second))
  {
    var afterSecond := Render(second) + suffix;
    var afterFirst := middle + afterSecond;
    assert afterFirst[0] == middle[0];
    AfterPrefixOfConcat(prefix, Render(first) + afterFirst);
    ReadNatOfRender(first, afterFirst);
    AfterPrefixOfConcat(middle, afterSecond);
    ReadNatOfRender(second, suffix);
  }

  /** The success message states exactly the two counts it was built from. */
  lemma ReadCountsOfSuccessMessage(restrictedCount: nat, pedestrianCount: nat)
    ensures ReadCounts(MessagePrefix + (Render(restrictedCount) + (MessageMiddle + (Render(pedestrianCount) + MessageSuffix))))
            == Some((restrictedCount, pedestrianCount))
  {
    assert MessageMiddle[0] == ' ' && MessageSuffix[0] == ' ';
    ReadFramedRender(MessagePrefix, MessageMiddle, MessageSuffix, restrictedCount, pedestrianCount);
  }

  /** The handler's decision for one request. */
  function Handle<C>(req: Request<C>): (resp: Response<C>)
    ensures resp.status in {200, 400, 405, 500}
    ensures resp.status == 405 <==> req.httpMethod != "POST"
    ensures req.httpMethod != "POST" ==> resp == Response(405, Failure(MethodNotAllowedText))
    ensures req.httpMethod == "POST" && !InputsPresent(req) ==> resp == Response(400, Failure(MissingInputText))
    ensures resp.status == 400 && resp.body != Failure(MissingInputText) ==>
              && InputsPresent(req)
              && (|| (FirstUpload(req.restrictedUploads).value.parsed.Err?
                      && resp.body == Failure(RestrictedJsonText + FirstUpload(req.restrictedUploads).value.parsed.error))
                  || (FirstUpload(req.restrictedUploads).value.parsed.Ok?
                      && FirstUpload(req.pedestrianUploads).value.parsed.Err?
                      && resp.body == Failure(PedestrianJsonText + FirstUpload(req.pedestrianUploads).value.parsed.error)))
    ensures resp.status == 500 ==> resp.body.ServerFault?
    ensures resp.status == 200 <==>
              && req.httpMethod == "POST"
              && InputsPresent(req)
              && FirstUpload(req.restrictedUploads).value.parsed.Ok?
              && FirstUpload(req.pedestrianUploads).value.parsed.Ok?
              && Transform(CityOf(req.city).value,
                           FirstUpload(req.restrictedUploads).value.parsed.value,
                           FirstUpload(req.pedestrianUploads).value.parsed.value).Ok?
    ensures req.httpMethod == "POST" && InputsPresent(req) ==>
              var restrictedParsed := FirstUpload(req.restrictedUploads).value.parsed;
              var pedestrianParsed := FirstUpload(req.pedestrianUploads).value.parsed;
              && (restrictedParsed.Err? ==> resp == Response(400, Failure(RestrictedJsonText + restrictedParsed.error)))
              && (restrictedParsed.Ok? && pedestrianParsed.Err? ==>
                    resp == Response(400, Failure(PedestrianJsonText + pedestrianParsed.error)))
              && (restrictedParsed.Ok? && pedestrianParsed.Ok? ==>
                    var t := Transform(CityOf(req.city).value, restrictedParsed.value, pedestrianParsed.value);
                    && (t.Err? ==> resp == Response(500, ServerFault(t.error)))
                    && (t.Ok? ==> resp == Response(200, Processed(
                          SuccessMessage(|t.value.restrictedZones|, |t.value.pedestrianZones|),
                          t.value.restrictedZones, t.value.pedestrianZones))))
    ensures resp.status == 500 ==>
              && req.httpMethod == "POST"
              && InputsPresent(req)
              && FirstUpload(req.restrictedUploads).value.parsed.Ok?
              && FirstUpload(req.pedestrianUploads).value.parsed.Ok?
    ensures resp.status == 200 ==>
              && resp.body.Processed?
              && (forall k :: 0 <= k < |resp.body.restrictedZones| ==> resp.body.restrictedZones[k].city == CityOf(req.city).value)
              && (forall k :: 0 <= k < |resp.body.pedestrianZones| ==> resp.body.pedestrianZones[k].city == CityOf(req.city).value)
              && ReadCounts(resp.body.message) == Some((|resp.body.restrictedZones|, |resp.body.pedestrianZones|))
              && |resp.body.restrictedZones| == |FirstUpload(req.restrictedUploads).value.parsed.value.features.value|
              && |resp.body.pedestrianZones| <= |FirstUpload(req.pedestrianUploads).value.parsed.value.features.value|
  {
    if req.httpMethod != "POST" then Response(405, Failure(MethodNotAllowedText))
    else if !InputsPresent(req) then Response(400, Failure(MissingInputText))
    else
      var city := CityOf(req.city).value;
      match FirstUpload(req.restrictedUploads).value.parsed
      case Err(message) => Response(400, Failure(RestrictedJsonText + message))
      case Ok(restrictedRaw) =>
        match FirstUpload(req.pedestrianUploads).value.parsed
        case Err(message) => Response(400, Failure(PedestrianJsonText + message))
        case Ok(pedestrianRaw) =>
          match Transform(city, restrictedRaw, pedestrianRaw)
          case Err(fault) => Response(500, ServerFault(fault))
          case Ok(output) =>
            var n, m := |output.restrictedZones|, |output.pedestrianZones|;
            Response(200, Processed(SuccessMessage(n, m), output.restrictedZones, output.pedestrianZones))
  }
}
