/**
 * The field mapping of the trade handler: one decoded exchange message
 * becomes one five-field row, or the handler raises before anything is
 * written.
 *
 * The two library calls the mapping relies on, `json.loads` and `float()`,
 * are not modelled; they are passed in as functions (`Parsers`) whose
 * `None` result stands for "raises".  Parsed prices and quantities are
 * carried as opaque `real` values: the model never computes with them.
 */
module TradeMessage {
  import opened Wrappers

  /** A decoded JSON value, as `json.loads` returns it. */
  datatype Json =
    | JNull
    | JBool(b: bool)
    | JInt(i: int)
    | JFloat(f: real)
    | JString(s: string)
    | JArray(items: seq<Json>)
    | JObject(fields: map<string, Json>)

  /** The library calls the handler delegates to; `None` means the call raises. */
  datatype Parsers = Parsers(loads: string -> Option<Json>, toFloat: Json -> Option<real>)

  /** One stored trade: the five columns of the store, in column order. */
  datatype Row = Row(
    timestamp: string,     // receipt time, formatted to the second
    price: real,           // float(data['p'])
    quantity: real,        // float(data['q'])
    tradeTimeMs: Json,     // data['T'], copied as is
    isBuyerMaker: Json     // data['m'], copied as is
  )

  /** Why the handler raised. */
  datatype Fault =
    | BadJson                // json.loads raised
    | NotAnObject            // the decoded value cannot be indexed by a key
    | MissingKey(key: string)
    | NotANumber(key: string) // float() raised on the value under key

  /** The value under `key` is there and `float()` accepts it. */
  predicate Convertible(data: Json, key: string, toFloat: Json -> Option<real>) {
    data.JObject? && key in data.fields && toFloat(data.fields[key]).Some?
  }

  /** The value under `key` is there. */
  predicate Present(data: Json, key: string) {
    data.JObject? && key in data.fields
  }

  /** `data[key]` */
  function Field(data: Json, key: string): Result<Json, Fault> {
    if !data.JObject? then Failure(NotAnObject)
    else if key !in data.fields then Failure(MissingKey(key))
    else Success(data.fields[key])
  }

  /** `float(data[key])` */
  function FloatField(data: Json, key: string, toFloat: Json -> Option<real>): Result<real, Fault> {
    match Field(data, key)
    case Failure(e) => Failure(e)
    case Success(v) =>
      match toFloat(v)
      case None => Failure(NotANumber(key))
      case Some(x) => Success(x)
  }

  /**
   * The row built from a decoded message.  The entries of the row are
   * evaluated left to right (timestamp, p, q, T, m), so the first key that
   * is missing or not convertible decides the fault.
   */
  function ParseTrade(data: Json, receivedAt: string, toFloat: Json -> Option<real>): (r: Result<Row, Fault>)
    ensures r.Success? <==>
      Convertible(data, "p", toFloat) && Convertible(data, "q", toFloat) &&
      Present(data, "T") && Present(data, "m")
    ensures r.Success? ==>
      r.value.timestamp == receivedAt &&
      r.value.price == toFloat(data.fields["p"]).value &&
      r.value.quantity == toFloat(data.fields["q"]).value &&
      r.value.tradeTimeMs == data.fields["T"] &&
      r.value.isBuyerMaker == data.fields["m"]
    ensures r == Failure(NotAnObject) <==> !data.JObject?
    ensures r == Failure(MissingKey("p")) <==> data.JObject? && !Present(data, "p")
    ensures r == Failure(NotANumber("p")) <==> Present(data, "p") && !Convertible(data, "p", toFloat)
    ensures r == Failure(MissingKey("q")) <==> Convertible(data, "p", toFloat) && !Present(data, "q")
    ensures r == Failure(NotANumber("q")) <==>
      Convertible(data, "p", toFloat) && Present(data, "q") && !Convertible(data, "q", toFloat)
    ensures r == Failure(MissingKey("T")) <==>
      Convertible(data, "p", toFloat) && Convertible(data, "q", toFloat) && !Present(data, "T")
    ensures r == Failure(MissingKey("m")) <==>
      Convertible(data, "p", toFloat) && Convertible(data, "q", toFloat) &&
      Present(data, "T") && !Present(data, "m")
    ensures r != Failure(BadJson)
  {
    var price :- FloatField(data, "p", toFloat);
    var quantity :- FloatField(data, "q", toFloat);
    var tradeTime :- Field(data, "T");
    var buyerMaker :- Field(data, "m");
    Success(Row(receivedAt, price, quantity, tradeTime, buyerMaker))
  }

  /** `json.loads(message)` followed by the field mapping. */
  function ParseFrame(parsers: Parsers, message: string, receivedAt: string): (r: Result<Row, Fault>)
    ensures r == Failure(BadJson) <==> parsers.loads(message).None?
    ensures parsers.loads(message).Some? ==>
      r == ParseTrade(parsers.loads(message).value, receivedAt, parsers.toFloat)
  {
    match parsers.loads(message)
    case None => Failure(BadJson)
    case Some(data) => ParseTrade(data, receivedAt, parsers.toFloat)
  }

  /**
   * Only the four trade keys are read: two messages that agree on `p`, `q`,
   * `T` and `m` give the same row (or the same fault), whatever else they
   * carry, and the row's timestamp is the receipt time, never a message field.
   */
  lemma ParseTradeReadsOnlyTradeKeys(a: Json, b: Json, receivedAt: string, toFloat: Json -> Option<real>)
    requires a.JObject? && b.JObject?
    requires forall k :: k in ["p", "q", "T", "m"] ==>
      (k in a.fields <==> k in b.fields) && (k in a.fields ==> a.fields[k] == b.fields[k])
    ensures ParseTrade(a, receivedAt, toFloat) == ParseTrade(b, receivedAt, toFloat)
  {
  }
}
