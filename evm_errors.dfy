/** The exceptions the exact-EVM client can raise, one constructor per throwing call. */
module EvmErrors {

  const CryptoUnavailableMessage := "Crypto API not available"
  const MissingDomainMessage :=
    "EIP-712 domain parameters (name, version) are required in payment requirements for asset "

  datatype EvmError =
    | CryptoUnavailable                    // createNonce without a crypto object
    | MissingDomainParameters(asset: string) // extra.name or extra.version falsy
    | InvalidAddress(address: string)        // getAddress rejected its argument
    | InvalidBigInt(text: string)            // BigInt rejected its argument
    | SignerFailed(reason: string)           // signer.signTypedData rejected
  {
    /** The message of the two errors the modelled code itself throws. */
    function Message(): (m: string)
      requires CryptoUnavailable? || MissingDomainParameters?
      ensures MissingDomainParameters? ==>
                m == MissingDomainMessage + asset && m[|MissingDomainMessage|..] == asset
      ensures CryptoUnavailable? ==> m == CryptoUnavailableMessage
    {
      if CryptoUnavailable? then CryptoUnavailableMessage else MissingDomainMessage + asset
    }
  }
}
