# x402 exact-EVM client, EVM utilities and facilitator errors

A Dafny model of the client half of x402's "exact" payment scheme on EVM chains, the
EVM constants and utilities it relies on, and the two error types a facilitator
client raises.

- **Exact-EVM client scheme** (`ExactEvmScheme`). `createPaymentPayload` draws a 32-byte
  nonce and reads the clock. It checksums `payTo` and builds an EIP-3009
  `transferWithAuthorization` tuple whose validity window runs from `now - 600` to
  `now + maxTimeoutSeconds`, both written as decimal text. `signAuthorization` reads the
  chain id from the CAIP-2 network (`namespace:reference`) and requires `extra.name` and
  `extra.version`. It then builds the EIP-712 domain and message, and hands them to the
  signer with the fixed `TransferWithAuthorization` schema.
- **EVM utilities** (`EvmUtils`, `EvmConstants`). `getEvmChainId` is a table lookup that
  falls back to 1. `createNonce` hex-encodes 32 random bytes. The signed struct's schema
  agrees with the EIP-3009 ABI.
- **Facilitator errors** (`FacilitatorErrors`). `VerifyError` and `SettleError` copy a
  failed response and build a message with an "unknown reason" fallback.

The model is pure: datatypes and functions. Every foreign call and every source of
nondeterminism is a parameter:

- `Date.now()` is `nowMs`.
- The bytes `getRandomValues` writes are `crypto: Option<Bytes32>`; `None` means no crypto
  object exists.
- viem's `getAddress` (EIP-55 checksum) is `getAddress: string -> Option<string>`; `None`
  means it throws.
- The wallet's `signTypedData` is a function field of `ClientEvmSigner` returning a
  `Result`.

A thrown exception is a `Failure` carrying an `EvmError`. The order of the error checks
follows the order of the statements in the source.

Supporting modules model the JavaScript built-ins the code depends on:

- `Decimal`: `Number.prototype.toString` on integers, `BigInt(string)` and `parseInt`.
- `Strings`: `String.prototype.split` with one-character separators, and its inverse
  `Join`.
- `Hex`: viem's `toHex` on bytes, and the decoder that inverts it.

## Model

| member | source | states |
|---|---|---|
| `ExactEvmScheme.NewExactEvmScheme` | node_modules/@x402/evm/dist/esm/chunk-FOUXRQAV.mjs:14-17 | the new scheme keeps the given signer and its scheme identifier is "exact" |
| `ExactEvmScheme.SchemeIsExact` | node_modules/@x402/evm/dist/esm/chunk-FOUXRQAV.mjs:16 | every scheme value identifies itself as "exact" (a datatype constant; nothing else can set it) |
| `ExactEvmScheme.UnixSeconds` | node_modules/@x402/evm/dist/esm/chunk-FOUXRQAV.mjs:27 | `now` is the floor of ms/1000: `now*1000 <= ms < now*1000 + 1000`, negative times included |
| `ExactEvmScheme.BuildAuthorization` | node_modules/@x402/evm/dist/esm/chunk-FOUXRQAV.mjs:28-36 | `from` is the signer address, `to` the checksummed payTo, `value` the amount unchanged, `nonce` the drawn nonce; validAfter and validBefore are exactly the toString texts (canonical decimals) of `now - 600` and `now + maxTimeoutSeconds`, which BigInt reads back as those integers |
| `ExactEvmScheme.AuthorizationWindow` | node_modules/@x402/evm/dist/esm/chunk-FOUXRQAV.mjs:32-34 | the window is exactly `maxTimeoutSeconds + 600` wide; `validAfter < validBefore` iff `maxTimeoutSeconds > -600`, so for every non-negative timeout |
| `ExactEvmScheme.CreatePaymentPayload` | node_modules/@x402/evm/dist/esm/chunk-FOUXRQAV.mjs:25-46 | no crypto object gives CryptoUnavailable; a payTo getAddress rejects gives InvalidAddress(payTo); on success the version is the caller's, the authorization is the one built from the nonce, clock and checksummed payTo, and the signature is what signing that authorization returns; when signing fails (missing domain parameters included) the payload fails with that same error |
| `ExactEvmScheme.CreatePaymentPayloadSucceeds` | node_modules/@x402/evm/dist/esm/chunk-FOUXRQAV.mjs:25-81 | both directions: a payload is produced exactly when a nonce exists, each checksummed address (payTo, asset, signer, checksummed payTo) is accepted, the amount is a BigInt, name and version are present and the signer signs |
| `ExactEvmScheme.NetworkReference` | node_modules/@x402/evm/dist/esm/chunk-FOUXRQAV.mjs:55 | `split(":")[1]` is undefined exactly when the network has no colon |
| `ExactEvmScheme.ChainIdOf` | node_modules/@x402/evm/dist/esm/chunk-FOUXRQAV.mjs:55 | no colon gives NaN (None); otherwise the chain id is parseInt of the text after the first colon, up to the next colon |
| `ExactEvmScheme.ChainIdOfCaip2` | node_modules/@x402/evm/dist/esm/chunk-FOUXRQAV.mjs:55 | for a network `namespace:N`, with a colon-free namespace and N any non-empty decimal digits (leading zeros allowed), the chain id is the value of N; `namespace:` + toString(n) gives n |
| `ExactEvmScheme.ChainIdReadsAfterFirstColon` | node_modules/@x402/evm/dist/esm/chunk-FOUXRQAV.mjs:55 | the chain id is parseInt of the text after the first colon, up to any further colon |
| `ExactEvmScheme.HasDomainParameters` | node_modules/@x402/evm/dist/esm/chunk-FOUXRQAV.mjs:56 | the check passes iff `extra` has both `name` and `version` and neither is a falsy value ("", 0, false, null) |
| `ExactEvmScheme.AuthorizationTypedData` | node_modules/@x402/evm/dist/esm/chunk-FOUXRQAV.mjs:55-81 | fails with MissingDomainParameters(asset) iff name or version is falsy; succeeds iff that check, the three getAddress calls and the three BigInt calls all succeed; the typed data has primary type "TransferWithAuthorization", the fixed schema, domain name/version from extra, chain id from the network, checksummed asset as verifying contract, and message integers that are the BigInt values of the authorization's texts |
| `ExactEvmScheme.SignAuthorization` | node_modules/@x402/evm/dist/esm/chunk-FOUXRQAV.mjs:54-82 | any failure of building the typed data is the result; otherwise the result is the signer's answer on exactly that typed data |
| `ExactEvmScheme.MissingDomainNeverSigns` | node_modules/@x402/evm/dist/esm/chunk-FOUXRQAV.mjs:56-60 | without name/version, signing fails with an error whose message ends in the asset, and the result is the same for any signer: the signer is never consulted |
| `ExactEvmScheme.MessageMatchesAuthorization` | node_modules/@x402/evm/dist/esm/chunk-FOUXRQAV.mjs:68-75 | the signed message has validAfter `now - 600` and validBefore `now + maxTimeoutSeconds`, whose decimal texts are those in the authorization; its nonce is the payload's; a canonical amount survives BigInt and back unchanged |
| `EvmConstants.TransferWithAuthorizationSchema` | node_modules/@x402/evm/dist/esm/chunk-ZYXTTU74.mjs:2-11 | the struct's fields are from, to, value, validAfter, validBefore, nonce, typed address, address, uint256, uint256, uint256, bytes32 |
| `EvmConstants.SchemaAgreesWithAbi` | node_modules/@x402/evm/dist/esm/chunk-ZYXTTU74.mjs:12-44 | the ABI has exactly two transferWithAuthorization entries, and the first six inputs of each, written out separately as in the ABI, equal the signed struct's separately written fields |
| `EvmUtils.GetEvmChainId` | node_modules/@x402/evm/dist/esm/chunk-ZYXTTU74.mjs:63-73 | base 8453, base-sepolia 84532, ethereum 1, sepolia 11155111, polygon 137, polygon-amoy 80002; any other name gives 1; the result is never 0 |
| `EvmUtils.CreateNonce` | node_modules/@x402/evm/dist/esm/chunk-ZYXTTU74.mjs:74-80 | fails with CryptoUnavailable iff no crypto object exists; otherwise it returns "0x" followed by 64 lower-case hex digits that decode to the 32 random bytes |
| `EvmUtils.NonceInjective` | node_modules/@x402/evm/dist/esm/chunk-ZYXTTU74.mjs:79 | two nonces are equal iff their random bytes are equal |
| `EvmErrors.EvmError.Message` | node_modules/@x402/evm/dist/esm/chunk-FOUXRQAV.mjs:57-59 | the missing-domain message is the fixed text followed by the asset, which can be read back from it; the no-crypto message is "Crypto API not available" (thrown at node_modules/@x402/evm/dist/esm/chunk-ZYXTTU74.mjs:77) |
| `Hex.ToHex` | node_modules/@x402/evm/dist/esm/chunk-ZYXTTU74.mjs:79 | "0x" followed by two lower-case hex digits per byte, decoding back to the bytes |
| `Hex.FromHexOfToHex` | node_modules/@x402/evm/dist/esm/chunk-ZYXTTU74.mjs:79 | toHex is lossless: decoding its output gives back the bytes |
| `Hex.HexToBytesOfBytesToHex` | node_modules/@x402/evm/dist/esm/chunk-ZYXTTU74.mjs:79 | decoding the two-digits-per-byte text gives back the bytes |
| `Hex.BytesToHex` | node_modules/@x402/evm/dist/esm/chunk-ZYXTTU74.mjs:79 | two hex digits per byte, all lower-case hex |
| `Decimal.IntToString` | node_modules/@x402/evm/dist/esm/chunk-FOUXRQAV.mjs:32-34 | a non-negative integer is written as canonical digits; a negative one as "-" followed by canonical digits other than "0" |
| `Decimal.NatToDecimal` | node_modules/@x402/evm/dist/esm/chunk-FOUXRQAV.mjs:32-34 | toString writes a non-empty digit string without superfluous leading zeros, with one digit exactly for values below 10 |
| `Decimal.DigitsValueOfNatToDecimal` | node_modules/@x402/evm/dist/esm/chunk-FOUXRQAV.mjs:32-34 | the digits written for n have value n |
| `Decimal.NatToDecimalOfDigitsValue` | node_modules/@x402/evm/dist/esm/chunk-FOUXRQAV.mjs:71 | every canonical digit string is the toString of its own value |
| `Decimal.ParseBigIntOfIntToString` | node_modules/@x402/evm/dist/esm/chunk-FOUXRQAV.mjs:72-73 | BigInt reads back exactly the integer toString wrote, negative ones included |
| `Decimal.CanonicalRoundTrip` | node_modules/@x402/evm/dist/esm/chunk-FOUXRQAV.mjs:71 | on canonical digit strings, BigInt then toString is the identity |
| `Decimal.LeadingDigits` | node_modules/@x402/evm/dist/esm/chunk-FOUXRQAV.mjs:55 | the longest prefix of digits: a digit-only prefix that stops at the first non-digit |
| `Decimal.ParseBigInt` | node_modules/@x402/evm/dist/esm/chunk-FOUXRQAV.mjs:71-73 | "" gives 0; all digits give their value (so "007" gives 7); "-" or "+" then digits give the negated or plain value; every other text (e.g. "-", "+", "1a") is rejected |
| `Decimal.ParseIntPrefix` | node_modules/@x402/evm/dist/esm/chunk-FOUXRQAV.mjs:55 | a number exactly when the text starts with a digit, or with a sign then a digit; an all-digit text gives its value; "-" then digits gives the negated value |
| `Decimal.ParseIntPrefixIgnoresTail` | node_modules/@x402/evm/dist/esm/chunk-FOUXRQAV.mjs:55 | whatever follows the leading digits (e.g. "12abc") is ignored |
| `Decimal.LeadingDigitsOfDigits` | node_modules/@x402/evm/dist/esm/chunk-FOUXRQAV.mjs:55 | an all-digit text is its own leading-digit prefix |
| `Decimal.ParseIntPrefixOfNatToDecimal` | node_modules/@x402/evm/dist/esm/chunk-FOUXRQAV.mjs:55 | parseInt reads back the decimal text of any natural number |
| `Strings.IndexOf` | node_modules/@x402/evm/dist/esm/chunk-FOUXRQAV.mjs:55 | the position of the first occurrence: it holds the character and nothing before it does |
| `Strings.Split` | node_modules/@x402/evm/dist/esm/chunk-FOUXRQAV.mjs:55 | at least one piece, and no piece contains the separator |
| `Strings.JoinSplit` | node_modules/@x402/evm/dist/esm/chunk-FOUXRQAV.mjs:55 | joining the pieces with the separator restores the string |
| `Strings.SplitCount` | node_modules/@x402/evm/dist/esm/chunk-FOUXRQAV.mjs:55 | there is a second piece exactly when the separator occurs |
| `Strings.SplitAfterPrefix` | node_modules/@x402/evm/dist/esm/chunk-FOUXRQAV.mjs:55 | a separator-free prefix followed by the separator is the first piece |
| `Strings.SplitWithoutSeparator` | node_modules/@x402/evm/dist/esm/chunk-FOUXRQAV.mjs:55 | a separator-free string is a single piece |
| `X402Types.Truthy` | node_modules/@x402/evm/dist/esm/chunk-FOUXRQAV.mjs:56 | a value is truthy iff it is not one of the falsy values "", 0, false, null |
| `FacilitatorErrors.ReasonOrUnknown` | node_modules/@x402/core/dist/esm/chunk-X4W4S5RB.mjs:10 | a present non-empty reason is kept; an absent or empty one becomes "unknown reason"; the result is never empty |
| `FacilitatorErrors.NewVerifyError` | node_modules/@x402/core/dist/esm/chunk-X4W4S5RB.mjs:9-15 | name "VerifyError"; statusCode, invalidReason and payer copied; message is "verification failed: " followed by the reason or "unknown reason" |
| `FacilitatorErrors.NewSettleError` | node_modules/@x402/core/dist/esm/chunk-X4W4S5RB.mjs:24-32 | name "SettleError"; statusCode, errorReason, payer, transaction and network copied; message is "settlement failed: " followed by the reason or "unknown reason" |
| `FacilitatorErrors.EmptyReasonIsUnknown` | node_modules/@x402/core/dist/esm/chunk-X4W4S5RB.mjs:10-25 | an empty reason gives the same message as an absent one, for both error types |
| `FacilitatorErrors.MessageDeterminesReason` | node_modules/@x402/core/dist/esm/chunk-X4W4S5RB.mjs:10-25 | for non-empty reasons, both directions: the messages are equal iff the reasons are |
| `FacilitatorErrors.UnknownReasonIsAmbiguous` | node_modules/@x402/core/dist/esm/chunk-X4W4S5RB.mjs:10 | the literal reason "unknown reason" gives the same message as no reason |

## Left out

- EIP-712 hashing and signing and EIP-55 checksumming are foreign (the wallet and viem's `getAddress`). They are parameters, so the model says nothing about signatures or checksum formats.
- Nonce uniqueness depends on the random source, which is a parameter. The model proves only that distinct bytes give distinct nonces.
- Promises and `async` are left out: each asynchronous call is modelled as the value it resolves to, or as a Failure for a rejection.
- Decimal.IntToString: integral values only. The exponent form JavaScript uses from 1e21 upward, and the precision lost above 2^53, are not modelled. A fractional `maxTimeoutSeconds` is not representable (`maxTimeoutSeconds` is an `int`).
- Decimal.ParseBigInt: leading/trailing whitespace and `0x`/`0o`/`0b` literals are not accepted. BigInt accepts them; the model reports InvalidBigInt instead.
- Decimal.ParseIntPrefix: leading whitespace and the `0x` hexadecimal prefix of `parseInt` are not modelled. Numbers too large for an IEEE double are read exactly.
- X402Types.Truthy: `extra` values are strings, integers, booleans, null or opaque objects only. NaN and fractional numbers are not modelled. An absent `extra` is modelled as an empty map.
- EvmUtils.GetEvmChainId: lookups of inherited object keys such as `"constructor"` are not modelled. Every name outside the table gives 1.
- Only the two error messages the code itself writes are modelled: missing domain parameters and no crypto object. The messages of errors thrown by viem, BigInt and the signer are not.
- The resource server, hook pipeline, HTTP binding, route compilation and header encoding are not part of this model. Neither are the Express application in `api/index.js` and the type-only declarations file; the latter served only as the shape of the datatypes.
