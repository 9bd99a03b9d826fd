/** VerifyError and SettleError: the exceptions raised for a facilitator's failed verify and
    settle responses. Each copies the response's details and composes a message whose reason
    falls back to "unknown reason" when the response gives none (absent or empty). */
module FacilitatorErrors {
  import opened Wrappers
  import opened X402Types

  const VerifyPrefix := "verification failed: "
  const SettlePrefix := "settlement failed: "
  const UnknownReason := "unknown reason"

  datatype VerifyError = VerifyError(
    name: string,
    message: string,
    statusCode: int,
    invalidReason: Option<string>,
    payer: Option<string>)

  datatype SettleError = SettleError(
    name: string,
    message: string,
    statusCode: int,
    errorReason: Option<string>,
    payer: Option<string>,
    transaction: string,
    network: Network)

  /** `reason || "unknown reason"`: undefined and "" are both falsy. */
  function ReasonOrUnknown(reason: Option<string>): (r: string)
    ensures r != ""
    ensures reason.Some? && reason.value != "" ==> r == reason.value
    ensures reason.None? || reason.value == "" ==> r == UnknownReason
  {
    if reason.Some? && reason.value != "" then reason.value else UnknownReason
  }

  /** `new VerifyError(statusCode, response)`. */
  function NewVerifyError(statusCode: int, response: VerifyResponse): (e: VerifyError)
    ensures e.name == "VerifyError"
    ensures e.statusCode == statusCode
    ensures e.invalidReason == response.invalidReason && e.payer == response.payer
    ensures |e.message| > |VerifyPrefix| && e.message[..|VerifyPrefix|] == VerifyPrefix
    ensures e.message[|VerifyPrefix|..] == ReasonOrUnknown(response.invalidReason)
  {
    VerifyError("VerifyError", VerifyPrefix + ReasonOrUnknown(response.invalidReason),
                statusCode, response.invalidReason, response.payer)
  }

  /** `new SettleError(statusCode, response)`. */
  function NewSettleError(statusCode: int, response: SettleResponse): (e: SettleError)
    ensures e.name == "SettleError"
    ensures e.statusCode == statusCode
    ensures e.errorReason == response.errorReason && e.payer == response.payer
    ensures e.transaction == response.transaction && e.network == response.network
    ensures |e.message| > |SettlePrefix| && e.message[..|SettlePrefix|] == SettlePrefix
    ensures e.message[|SettlePrefix|..] == ReasonOrUnknown(response.errorReason)
  {
    SettleError("SettleError", SettlePrefix + ReasonOrUnknown(response.errorReason),
                statusCode, response.errorReason, response.payer,
                response.transaction, response.network)
  }

  /** An empty reason reads exactly like a missing one. */
  lemma EmptyReasonIsUnknown(statusCode: int, v: VerifyResponse, s: SettleResponse)
    ensures NewVerifyError(statusCode, v.(invalidReason := Some(""))).message
            == NewVerifyError(statusCode, v.(invalidReason := None)).message
            == VerifyPrefix + UnknownReason
    ensures NewSettleError(statusCode, s.(errorReason := Some(""))).message
            == NewSettleError(statusCode, s.(errorReason := None)).message
            == SettlePrefix + UnknownReason
  {
  }

  /** The message determines a non-empty reason: two different reasons give two different
      messages, for verify and for settle alike. */
  lemma MessageDeterminesReason(
    statusCode: int, v1: VerifyResponse, v2: VerifyResponse, s1: SettleResponse, s2: SettleResponse)
    requires v1.invalidReason.Some? && v1.invalidReason.value != ""
    requires v2.invalidReason.Some? && v2.invalidReason.value != ""
    requires s1.errorReason.Some? && s1.errorReason.value != ""
    requires s2.errorReason.Some? && s2.errorReason.value != ""
    ensures NewVerifyError(statusCode, v1).message == NewVerifyError(statusCode, v2).message
            <==> v1.invalidReason == v2.invalidReason
    ensures NewSettleError(statusCode, s1).message == NewSettleError(statusCode, s2).message
            <==> s1.errorReason == s2.errorReason
  {
  }

  /** The one reason the message cannot tell from a missing one is the literal
      "unknown reason". */
  lemma UnknownReasonIsAmbiguous(statusCode: int, v: VerifyResponse)
    ensures NewVerifyError(statusCode, v.(invalidReason := Some(UnknownReason))).message
            == NewVerifyError(statusCode, v.(invalidReason := None)).message
  {
  }
}
