/** The EIP-712 type schema of TransferWithAuthorization and the EIP-3009 contract ABI. */
module EvmConstants {

  /** One named, typed parameter of an ABI entry or an EIP-712 struct. */
  datatype AbiParam = AbiParam(name: string, abiType: string)

  /** One entry of a contract ABI; `kind` is the entry's `type` ("function", ...). */
  datatype AbiEntry = AbiEntry(
    inputs: seq<AbiParam>,
    name: string,
    outputs: seq<AbiParam>,
    stateMutability: string,
    kind: string)

  const TransferWithAuthorizationFields: seq<AbiParam> := [
    AbiParam("from", "address"),
    AbiParam("to", "address"),
    AbiParam("value", "uint256"),
    AbiParam("validAfter", "uint256"),
    AbiParam("validBefore", "uint256"),
    AbiParam("nonce", "bytes32")
  ]

  /** `authorizationTypes`: the EIP-712 types handed to the signer. */
  const AuthorizationTypes: map<string, seq<AbiParam>> :=
    map["TransferWithAuthorization" := TransferWithAuthorizationFields]

  /** `eip3009ABI`: the two transferWithAuthorization overloads (v, r, s and packed signature),
      balanceOf and version. */
  const Eip3009Abi: seq<AbiEntry> := [
    AbiEntry(
      [
        AbiParam("from", "address"),
        AbiParam("to", "address"),
        AbiParam("value", "uint256"),
        AbiParam("validAfter", "uint256"),
        AbiParam("validBefore", "uint256"),
        AbiParam("nonce", "bytes32"),
        AbiParam("v", "uint8"),
        AbiParam("r", "bytes32"),
        AbiParam("s", "bytes32")
      ],
      "transferWithAuthorization", [], "nonpayable", "function"),
    AbiEntry(
      [
        AbiParam("from", "address"),
        AbiParam("to", "address"),
        AbiParam("value", "uint256"),
        AbiParam("validAfter", "uint256"),
        AbiParam("validBefore", "uint256"),
        AbiParam("nonce", "bytes32"),
        AbiParam("signature", "bytes")
      ],
      "transferWithAuthorization", [], "nonpayable", "function"),
    AbiEntry(
      [AbiParam("account", "address")],
      "balanceOf", [AbiParam("", "uint256")], "view", "function"),
    AbiEntry(
      [],
      "version", [AbiParam("", "string")], "view", "function")
  ]

  function Names(params: seq<AbiParam>): (names: seq<string>)
    ensures |names| == |params|
    ensures forall i :: 0 <= i < |params| ==> names[i] == params[i].name
    decreases |params|
  {
    if params == [] then [] else [params[0].name] + Names(params[1..])
  }

  function Types(params: seq<AbiParam>): (types: seq<string>)
    ensures |types| == |params|
    ensures forall i :: 0 <= i < |params| ==> types[i] == params[i].abiType
    decreases |params|
  {
    if params == [] then [] else [params[0].abiType] + Types(params[1..])
  }

  /** The signed struct has exactly these six fields, in this order, with these types. */
  lemma TransferWithAuthorizationSchema()
    ensures "TransferWithAuthorization" in AuthorizationTypes
    ensures Names(AuthorizationTypes["TransferWithAuthorization"])
         == ["from", "to", "value", "validAfter", "validBefore", "nonce"]
    ensures Types(AuthorizationTypes["TransferWithAuthorization"])
         == ["address", "address", "uint256", "uint256", "uint256", "bytes32"]
  {
  }

  /** Every transferWithAuthorization entry of the ABI begins with the signed struct's fields,
      and there are exactly two of them. */
  lemma SchemaAgreesWithAbi()
    ensures forall i :: 0 <= i < |Eip3009Abi| && Eip3009Abi[i].name == "transferWithAuthorization"
              ==> |Eip3009Abi[i].inputs| >= 6
                  && Eip3009Abi[i].inputs[..6] == AuthorizationTypes["TransferWithAuthorization"]
    ensures forall i :: 0 <= i < |Eip3009Abi| ==>
              (Eip3009Abi[i].name == "transferWithAuthorization" <==> i < 2)
  {
  }
}
