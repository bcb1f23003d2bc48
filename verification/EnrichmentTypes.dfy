/** The records that schema inference, row enrichment and confidence scoring pass to each other. */
module EnrichmentTypes {
  import opened Options

  datatype Field = AssetName | ValueField | Currency | Jurisdiction | Latitude | Longitude | AssetType

  /** The codes that extraction and schema inference recognise. */
  const CURRENCY_CODES := ["USD", "EUR", "GBP", "JPY", "AUD", "CAD", "CHF", "CNY", "INR", "BRL", "MXN", "SGD", "HKD", "KRW"]

  /** `column` may be null in an answer of the language model. */
  datatype Entry = Entry(column: Option<string>, confidence: real, alternatives: seq<string>)

  type FieldMapping = map<Field, Entry>

  /** The mapped column of a field; absent, null and empty names are all falsy in the source. */
  predicate IsMapped(fields: FieldMapping, f: Field) {
    f in fields && fields[f].column.Some? && fields[f].column.value != ""
  }

  function ColumnOr(fields: FieldMapping, f: Field, otherwise: string): string {
    if IsMapped(fields, f) then fields[f].column.value else otherwise
  }

  /** An optional property: a model may leave it out, send null, or send a value. */
  datatype Property<T> = Undefined | Null | Given(value: T)

  /** A text property as the model's JSON gives it. Scalars, and the values of a list or an object,
      are represented by their printed JSON. */
  datatype TextValue =
    | Words(text: string)
    | Scalar(json: string)
    | Items(items: seq<string>)
    | Members(members: map<string, string>)

  predicate IsTruthy(v: TextValue) {
    match v
    case Words(text) => text != ""
    case Scalar(json) => json != "0" && json != "false"
    case _ => true
  }

  /** The property `length` of the value is the number 3. */
  predicate HasLengthThree(v: TextValue) {
    match v
    case Words(text) => |text| == 3
    case Scalar(_) => false
    case Items(items) => |items| == 3
    case Members(members) => "length" in members && members["length"] == "3"
  }

  /** What conversion to a number makes of a value. */
  datatype Reading = NaN | Infinite | Finite(value: real)

  /** A coordinate comes with the text the language prints for it, and may itself be a text;
      an object is represented by the names of its own properties. */
  datatype Coordinate = Plain(reading: Reading, printed: string, isText: bool) | Object(names: set<string>)

  /** Converting an object to a number ends in NaN, unless a property of its own hides `toString`. */
  predicate Converts(c: Coordinate) { c.Plain? || "toString" !in c.names }

  predicate IsNonZero(c: Coordinate) {
    match c
    case Object(_) => true
    case Plain(reading, printed, isText) =>
      if isText then printed != "" else reading.Infinite? || (reading.Finite? && reading.value != 0.0)
  }

  /** For each kind of inference, whether it is reported at all, and if so with a truthy value. */
  datatype Signals = Signals(
    currencyInferred: Option<bool>, exactValueMatch: bool, assetTypeInferred: Option<bool>,
    jurisdictionInferred: Option<bool>, coordinatesInferred: Option<bool>, fieldMissing: bool)

  const NO_SIGNALS := Signals(None, false, None, None, None, false)

  /** A truthy array element of the model's answer, property by property as it arrives; one that is
      not even an object has no properties. */
  datatype Output = Output(
    normalizedAssetName: Property<TextValue>, currency: Property<TextValue>, assetType: Property<TextValue>,
    jurisdiction: Property<TextValue>, latitude: Property<Coordinate>, longitude: Property<Coordinate>,
    confidenceSignals: Property<Signals>, explanation: Property<TextValue>, needsReview: bool)

  /** A truthy property. */
  predicate IsFilled(p: Property<TextValue>) { p.Given? && IsTruthy(p.value) }

  /** The signals the scorer reads; it gets no further when there are none. */
  function SignalsOf(output: Output): Signals {
    if output.confidenceSignals.Given? then output.confidenceSignals.value else NO_SIGNALS
  }
}
