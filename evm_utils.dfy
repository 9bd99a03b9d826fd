/** getEvmChainId and createNonce. */
module EvmUtils {
  import opened Wrappers
  import opened Hex
  import opened EvmErrors

  /** The legacy network names and their EVM chain ids. */
  const NetworkMap: map<string, nat> := map[
    "base" := 8453,
    "base-sepolia" := 84532,
    "ethereum" := 1,
    "sepolia" := 11155111,
    "polygon" := 137,
    "polygon-amoy" := 80002
  ]

  /** `networkMap[network] || 1`: the table entry when there is a truthy one, else 1. */
  function GetEvmChainId(network: string): (id: nat)
    ensures network == "base" ==> id == 8453
    ensures network == "base-sepolia" ==> id == 84532
    ensures network == "ethereum" ==> id == 1
    ensures network == "sepolia" ==> id == 11155111
    ensures network == "polygon" ==> id == 137
    ensures network == "polygon-amoy" ==> id == 80002
    ensures network !in NetworkMap ==> id == 1
    ensures id != 0
  {
    if network in NetworkMap && NetworkMap[network] != 0 then NetworkMap[network] else 1
  }

  /** The 32 bytes getRandomValues writes into the fresh Uint8Array(32). */
  type Bytes32 = s: seq<uint8> | |s| == 32 witness seq(32, i => 0)

  /** `createNonce()`. `crypto` is what the random source yields, None when there is no
      crypto object. */
  function CreateNonce(crypto: Option<Bytes32>): (r: Result<string, EvmError>)
    ensures crypto.None? <==> r.Failure?
    ensures r.Failure? ==> r.error == CryptoUnavailable
    ensures r.Success? ==>
              && |r.value| == 66
              && r.value[..2] == "0x"
              && AllHexDigits(r.value[2..])
              && FromHex(r.value) == Some(crypto.value)
  {
    match crypto
    case None => Failure(CryptoUnavailable)
    case Some(bytes) =>
      FromHexOfToHex(bytes);
      Success(ToHex(bytes))
  }

  /** Two nonces are equal exactly when the random bytes behind them are. */
  lemma NonceInjective(a: Bytes32, b: Bytes32)
    ensures CreateNonce(Some(a)) == CreateNonce(Some(b)) <==> a == b
  {
  }
}
