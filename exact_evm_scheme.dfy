/** The client side of the "exact" EVM payment scheme: it builds an EIP-3009
    transferWithAuthorization, has it signed as EIP-712 typed data and wraps it in a payload.
    The foreign calls are parameters: `getAddress` is viem's EIP-55 checksum (None where it
    throws), the signer's `signTypedData` is the wallet, `nowMs` is Date.now() and `crypto`
    is the random source behind createNonce. */
module ExactEvmScheme {
  import opened Wrappers
  import opened Decimal
  import opened Strings
  import opened X402Types
  import opened EvmConstants
  import opened EvmErrors
  import opened EvmUtils

  /** The backdate of validAfter, in seconds, that tolerates clock skew. */
  const ValidAfterBackdate := 600

  const PrimaryType := "TransferWithAuthorization"

  /** The EIP-3009 authorization as the payload carries it: integers as decimal text. */
  datatype Authorization = Authorization(
    from: string,
    to: string,
    value: string,
    validAfter: string,
    validBefore: string,
    nonce: string)

  /** The EIP-712 domain. `chainId` is None where parseInt yields NaN. */
  datatype Domain = Domain(
    name: JsValue,
    version: JsValue,
    chainId: Option<int>,
    verifyingContract: string)

  /** The EIP-712 message: the authorization with its integers as integers. */
  datatype Message = Message(
    from: string,
    to: string,
    value: int,
    validAfter: int,
    validBefore: int,
    nonce: string)

  datatype TypedData = TypedData(
    domain: Domain,
    types: map<string, seq<AbiParam>>,
    primaryType: string,
    message: Message)

  /** A wallet: its address and its EIP-712 signing capability (Failure where it rejects). */
  datatype ClientEvmSigner = ClientEvmSigner(
    address: string,
    signTypedData: TypedData -> Result<string, string>)

  datatype ExactEvmScheme = ExactEvmScheme(signer: ClientEvmSigner) {
    /** The scheme identifier, fixed for every instance. */
    const scheme: string := "exact"
  }

  datatype ExactPayload = ExactPayload(authorization: Authorization, signature: string)

  /** The part of a PaymentPayload the client scheme fills in. */
  datatype ClientPaymentPayload = ClientPaymentPayload(x402Version: int, payload: ExactPayload)

  /** `new ExactEvmScheme(signer)`. */
  function NewExactEvmScheme(signer: ClientEvmSigner): (s: ExactEvmScheme)
    ensures s.signer == signer && s.scheme == "exact"
  {
    ExactEvmScheme(signer)
  }

  /** `Math.floor(ms / 1000)`: whole seconds since the epoch. */
  function UnixSeconds(ms: int): (now: int)
    ensures now * 1000 <= ms < now * 1000 + 1000
  {
    ms / 1000
  }

  /** `network.split(":")[1]`: the text between the first colon and the next one, or None
      (undefined) when the network has no colon. */
  function NetworkReference(network: Network): (r: Option<string>)
    ensures r.None? <==> ':' !in network
  {
    var parts := Split(network, ':');
    SplitCount(network, ':');
    if |parts| > 1 then Some(parts[1]) else None
  }

  /** `parseInt(network.split(":")[1])`. */
  function ChainIdOf(network: Network): (r: Option<int>)
    ensures ':' !in network ==> r.None?
    ensures ':' in network ==>
              var i := IndexOf(network, ':');
              r == ParseIntPrefix(Split(network[i + 1..], ':')[0])
  {
    if ':' in network then
      var i := IndexOf(network, ':');
      SplitAfterPrefix(network[..i], ':', network[i + 1..]);
      assert network[..i] + [':'] + network[i + 1..] == network;
      ChainIdFromReference(network)
    else
      ChainIdFromReference(network)
  }

  function ChainIdFromReference(network: Network): Option<int>
  {
    match NetworkReference(network)
    case None => None
    case Some(reference) => ParseIntPrefix(reference)
  }

  /** The check before signing: both `extra.name` and `extra.version` are truthy. */
  predicate HasDomainParameters(extra: map<string, JsValue>)
    ensures HasDomainParameters(extra) <==>
              && "name" in extra && extra["name"] !in FalsyValues
              && "version" in extra && extra["version"] !in FalsyValues
  {
    "name" in extra && Truthy(extra["name"]) && "version" in extra && Truthy(extra["version"])
  }

  function Checksum(getAddress: string -> Option<string>, address: string): Result<string, EvmError>
  {
    match getAddress(address)
    case None => Failure(InvalidAddress(address))
    case Some(checksummed) => Success(checksummed)
  }

  function ToBigInt(text: string): Result<int, EvmError>
  {
    match ParseBigInt(text)
    case None => Failure(InvalidBigInt(text))
    case Some(i) => Success(i)
  }

  /** What `signAuthorization` hands to the signer, with the error its statements throw first,
      in their order: the domain check, then getAddress(asset), getAddress(from), getAddress(to),
      then BigInt of value, validAfter and validBefore. */
  function AuthorizationTypedData(
    authorization: Authorization,
    requirements: PaymentRequirements,
    getAddress: string -> Option<string>): (r: Result<TypedData, EvmError>)
    ensures r == Failure(MissingDomainParameters(requirements.asset))
            <==> !HasDomainParameters(requirements.extra)
    ensures r.Success? <==>
              && HasDomainParameters(requirements.extra)
              && getAddress(requirements.asset).Some?
              && getAddress(authorization.from).Some?
              && getAddress(authorization.to).Some?
              && ParseBigInt(authorization.value).Some?
              && ParseBigInt(authorization.validAfter).Some?
              && ParseBigInt(authorization.validBefore).Some?
    ensures r.Success? ==>
              && r.value.primaryType == "TransferWithAuthorization"
              && r.value.types == AuthorizationTypes
              && r.value.domain.name == requirements.extra["name"]
              && r.value.domain.version == requirements.extra["version"]
              && r.value.domain.chainId == ChainIdOf(requirements.network)
              && getAddress(requirements.asset) == Some(r.value.domain.verifyingContract)
              && getAddress(authorization.from) == Some(r.value.message.from)
              && getAddress(authorization.to) == Some(r.value.message.to)
              && ParseBigInt(authorization.value) == Some(r.value.message.value)
              && ParseBigInt(authorization.validAfter) == Some(r.value.message.validAfter)
              && ParseBigInt(authorization.validBefore) == Some(r.value.message.validBefore)
              && r.value.message.nonce == authorization.nonce
  {
    var chainId := ChainIdOf(requirements.network);
    if !HasDomainParameters(requirements.extra) then
      Failure(MissingDomainParameters(requirements.asset))
    else
      var contract :- Checksum(getAddress, requirements.asset);
      var domain := Domain(requirements.extra["name"], requirements.extra["version"], chainId, contract);
      var from :- Checksum(getAddress, authorization.from);
      var to :- Checksum(getAddress, authorization.to);
      var value :- ToBigInt(authorization.value);
      var validAfter :- ToBigInt(authorization.validAfter);
      var validBefore :- ToBigInt(authorization.validBefore);
      var message := Message(from, to, value, validAfter, validBefore, authorization.nonce);
      Success(TypedData(domain, AuthorizationTypes, PrimaryType, message))
  }

  /** `signAuthorization(authorization, requirements)`: the signer's signature over the typed
      data above; the signer is consulted only once that typed data exists. */
  function SignAuthorization(
    scheme: ExactEvmScheme,
    authorization: Authorization,
    requirements: PaymentRequirements,
    getAddress: string -> Option<string>): (r: Result<string, EvmError>)
    ensures AuthorizationTypedData(authorization, requirements, getAddress).Failure? ==>
              r == Failure(AuthorizationTypedData(authorization, requirements, getAddress).error)
    ensures AuthorizationTypedData(authorization, requirements, getAddress).Success? ==>
              var signed := scheme.signer.signTypedData(
                AuthorizationTypedData(authorization, requirements, getAddress).value);
              r == (if signed.Success? then Success(signed.value) else Failure(SignerFailed(signed.error)))
  {
    var typedData :- AuthorizationTypedData(authorization, requirements, getAddress);
    match scheme.signer.signTypedData(typedData)
    case Success(signature) => Success(signature)
    case Failure(reason) => Failure(SignerFailed(reason))
  }

  /** The authorization `createPaymentPayload` builds for a nonce and a clock reading. */
  function BuildAuthorization(
    scheme: ExactEvmScheme,
    requirements: PaymentRequirements,
    nonce: string,
    nowMs: int,
    to: string): (a: Authorization)
    ensures a.from == scheme.signer.address && a.to == to && a.nonce == nonce
    ensures a.value == requirements.amount
    ensures a.validAfter == IntToString(UnixSeconds(nowMs) - ValidAfterBackdate)
    ensures a.validBefore == IntToString(UnixSeconds(nowMs) + requirements.maxTimeoutSeconds)
    ensures ParseBigInt(a.validAfter) == Some(UnixSeconds(nowMs) - ValidAfterBackdate)
    ensures ParseBigInt(a.validBefore) == Some(UnixSeconds(nowMs) + requirements.maxTimeoutSeconds)
  {
    var opens := UnixSeconds(nowMs) - ValidAfterBackdate;
    var closes := UnixSeconds(nowMs) + requirements.maxTimeoutSeconds;
    ParseBigIntOfIntToString(opens);
    ParseBigIntOfIntToString(closes);
    Authorization(scheme.signer.address, to, requirements.amount,
                  IntToString(opens), IntToString(closes), nonce)
  }

  /** `createPaymentPayload(x402Version, requirements)`: draw the nonce, read the clock,
      checksum payTo, build the authorization, sign it. */
  function CreatePaymentPayload(
    scheme: ExactEvmScheme,
    x402Version: int,
    requirements: PaymentRequirements,
    crypto: Option<Bytes32>,
    nowMs: int,
    getAddress: string -> Option<string>): (r: Result<ClientPaymentPayload, EvmError>)
    ensures crypto.None? ==> r == Failure(CryptoUnavailable)
    ensures crypto.Some? && getAddress(requirements.payTo).None? ==>
              r == Failure(InvalidAddress(requirements.payTo))
    ensures crypto.Some? && getAddress(requirements.payTo).Some? ==>
              var a := BuildAuthorization(scheme, requirements, CreateNonce(crypto).value, nowMs,
                                          getAddress(requirements.payTo).value);
              SignAuthorization(scheme, a, requirements, getAddress).Failure? ==>
                r == Failure(SignAuthorization(scheme, a, requirements, getAddress).error)
    ensures r.Success? ==>
              && crypto.Some? && getAddress(requirements.payTo).Some?
              && r.value.x402Version == x402Version
              && r.value.payload.authorization == BuildAuthorization(
                   scheme, requirements, CreateNonce(crypto).value, nowMs,
                   getAddress(requirements.payTo).value)
              && SignAuthorization(scheme, r.value.payload.authorization, requirements, getAddress)
                 == Success(r.value.payload.signature)
  {
    var nonce :- CreateNonce(crypto);
    var to :- Checksum(getAddress, requirements.payTo);
    var authorization := BuildAuthorization(scheme, requirements, nonce, nowMs, to);
    var signature :- SignAuthorization(scheme, authorization, requirements, getAddress);
    Success(ClientPaymentPayload(x402Version, ExactPayload(authorization, signature)))
  }

  /** Every scheme instance identifies itself as "exact"; nothing but construction sets it. */
  lemma SchemeIsExact(s: ExactEvmScheme)
    ensures s.scheme == "exact"
  {
  }

  /** For a network `namespace:N` with N any decimal digits (leading zeros allowed), the
      domain chain id is the value of N; in particular `namespace:` + toString(n) gives n. */
  lemma ChainIdOfCaip2(namespace: string, digits: string, n: nat)
    requires ':' !in namespace
    requires digits != [] && AllDigits(digits)
    ensures ChainIdOf(namespace + ":" + digits) == Some(DigitsValue(digits))
    ensures ChainIdOf(namespace + ":" + NatToDecimal(n)) == Some(n)
  {
    ChainIdOfDigits(namespace, digits);
    ChainIdOfDigits(namespace, NatToDecimal(n));
    DigitsValueOfNatToDecimal(n);
  }

  lemma ChainIdOfDigits(namespace: string, digits: string)
    requires ':' !in namespace
    requires digits != [] && AllDigits(digits)
    ensures ChainIdOf(namespace + ":" + digits) == Some(DigitsValue(digits))
  {
    ChainIdReadsAfterFirstColon(namespace, digits);
    assert ':' !in digits by {
      // every character of digits is a decimal digit
      forall k | 0 <= k < |digits| ensures digits[k] != ':' { assert IsDigit(digits[k]); }
    }
    SplitWithoutSeparator(digits, ':');
  }

  /** The chain id is read from the text after the first colon, up to any further colon. */
  lemma ChainIdReadsAfterFirstColon(namespace: string, rest: string)
    requires ':' !in namespace
    ensures ChainIdOf(namespace + ":" + rest) == ParseIntPrefix(Split(rest, ':')[0])
  {
    SplitAfterPrefix(namespace, ':', rest);
    assert namespace + ":" + rest == namespace + [':'] + rest;
    assert (namespace + ":" + rest)[|namespace|] == ':';
  }

  /** The window is exactly maxTimeoutSeconds + 600 seconds wide and opens before it closes
      whenever the timeout exceeds -600, in particular for every non-negative timeout. */
  lemma AuthorizationWindow(
    scheme: ExactEvmScheme,
    requirements: PaymentRequirements,
    nonce: string,
    nowMs: int,
    to: string)
    ensures var a := BuildAuthorization(scheme, requirements, nonce, nowMs, to);
            && ParseBigInt(a.validAfter).Some? && ParseBigInt(a.validBefore).Some?
            && ParseBigInt(a.validBefore).value - ParseBigInt(a.validAfter).value
               == requirements.maxTimeoutSeconds + ValidAfterBackdate
            && (ParseBigInt(a.validAfter).value < ParseBigInt(a.validBefore).value
                <==> requirements.maxTimeoutSeconds > -ValidAfterBackdate)
  {
  }

  /** The integers of the signed message are those whose decimal text the payload carries:
      toString followed by BigInt loses nothing, and so does BigInt followed by toString on a
      canonical amount. */
  lemma {:induction false} MessageMatchesAuthorization(
    scheme: ExactEvmScheme,
    requirements: PaymentRequirements,
    nonce: string,
    nowMs: int,
    to: string,
    getAddress: string -> Option<string>)
    requires AuthorizationTypedData(
               BuildAuthorization(scheme, requirements, nonce, nowMs, to), requirements, getAddress).Success?
    ensures var a := BuildAuthorization(scheme, requirements, nonce, nowMs, to);
            var m := AuthorizationTypedData(a, requirements, getAddress).value.message;
            && m.validAfter == UnixSeconds(nowMs) - ValidAfterBackdate
            && m.validBefore == UnixSeconds(nowMs) + requirements.maxTimeoutSeconds
            && IntToString(m.validAfter) == a.validAfter
            && IntToString(m.validBefore) == a.validBefore
            && m.nonce == nonce
            && (Canonical(requirements.amount) ==> IntToString(m.value) == requirements.amount)
  {
    if Canonical(requirements.amount) {
      CanonicalRoundTrip(requirements.amount);
    }
  }

  /** Without truthy extra.name and extra.version, signing fails naming the asset, whatever
      the signer would have done: the signer is never consulted. */
  lemma MissingDomainNeverSigns(
    scheme: ExactEvmScheme,
    other: ExactEvmScheme,
    authorization: Authorization,
    requirements: PaymentRequirements,
    getAddress: string -> Option<string>)
    requires !HasDomainParameters(requirements.extra)
    ensures SignAuthorization(scheme, authorization, requirements, getAddress)
            == Failure(MissingDomainParameters(requirements.asset))
            == SignAuthorization(other, authorization, requirements, getAddress)
    ensures MissingDomainParameters(requirements.asset).Message()
            == MissingDomainMessage + requirements.asset
  {
  }

  /** createPaymentPayload succeeds exactly when a nonce can be drawn, every address it
      checksums is accepted, the amount is an integer, the domain parameters are present and
      the signer signs. */
  lemma CreatePaymentPayloadSucceeds(
    scheme: ExactEvmScheme,
    x402Version: int,
    requirements: PaymentRequirements,
    crypto: Option<Bytes32>,
    nowMs: int,
    getAddress: string -> Option<string>)
    ensures CreatePaymentPayload(scheme, x402Version, requirements, crypto, nowMs, getAddress).Success?
            <==>
            && crypto.Some?
            && getAddress(requirements.payTo).Some?
            && HasDomainParameters(requirements.extra)
            && getAddress(requirements.asset).Some?
            && getAddress(scheme.signer.address).Some?
            && getAddress(getAddress(requirements.payTo).value).Some?
            && ParseBigInt(requirements.amount).Some?
            && var a := BuildAuthorization(scheme, requirements, CreateNonce(crypto).value, nowMs,
                                           getAddress(requirements.payTo).value);
               scheme.signer.signTypedData(AuthorizationTypedData(a, requirements, getAddress).value).Success?
  {
  }
}
