/** The protocol's data shapes that the modelled code reads and writes. */
module X402Types {
  import opened Wrappers

  /** A value of an `extra` record. Numbers are limited to integers. */
  datatype JsValue = JsString(s: string) | JsNumber(n: int) | JsBool(b: bool) | JsNull | JsObject

  /** The falsy values among those modelled. */
  const FalsyValues: set<JsValue> := {JsString(""), JsNumber(0), JsBool(false), JsNull}

  /** JavaScript truthiness: "", 0, false and null are falsy; every object is truthy. */
  predicate Truthy(v: JsValue)
    ensures Truthy(v) <==> v !in FalsyValues
  {
    match v
    case JsString(s) => s != ""
    case JsNumber(n) => n != 0
    case JsBool(b) => b
    case JsNull => false
    case JsObject => true
  }

  /** A network id in CAIP-2 `namespace:reference` form, e.g. "eip155:8453". */
  type Network = string

  /** One concrete, resolved way to pay. A key missing from `extra` is `undefined`. */
  datatype PaymentRequirements = PaymentRequirements(
    scheme: string,
    network: Network,
    asset: string,
    amount: string,
    payTo: string,
    maxTimeoutSeconds: int,
    extra: map<string, JsValue>)

  /** A facilitator's answer to a verify request. */
  datatype VerifyResponse = VerifyResponse(
    isValid: bool,
    invalidReason: Option<string>,
    payer: Option<string>)

  /** A facilitator's answer to a settle request. */
  datatype SettleResponse = SettleResponse(
    success: bool,
    errorReason: Option<string>,
    payer: Option<string>,
    transaction: string,
    network: Network)
}
