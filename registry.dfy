/**
 * The chain-registry lookup in main (api/main.ts:485-518): ask the provider for its chain
 * id, then take the first entry of the contract registry whose chainID is that id. A provider
 * whose network query throws, or whose chain has no entry, is skipped. The registry itself
 * (addresses/contractAddresses.json) is a parameter.
 */
module Registry {
  import opened Options
  import opened Types

  /** One entry of the contract registry. */
  datatype ContractInfo = ContractInfo(chainID: int, chessWager: Address, tournament: Address)

  /** contractAddresses.find(contract => contract.chainID === chainId): the first matching entry. */
  function FindContract(registry: seq<ContractInfo>, chainId: int): (r: Option<ContractInfo>)
    ensures r.None? <==> forall i :: 0 <= i < |registry| ==> registry[i].chainID != chainId
    ensures r.Some? ==>
      exists i :: 0 <= i < |registry| && registry[i] == r.value && registry[i].chainID == chainId &&
        forall j :: 0 <= j < i ==> registry[j].chainID != chainId
    decreases |registry|
  {
    if registry == [] then None
    else if registry[0].chainID == chainId then Some(registry[0])
    else
      var rest := FindContract(registry[1..], chainId);
      assert forall i :: 1 <= i < |registry| ==> registry[i] == registry[1..][i - 1];
      rest
  }

  /**
   * api/main.ts:485-511 for one provider: the contracts bound for it, or None when the provider is
   * skipped. network is the answer of getNetwork (None when it throws).
   */
  function BindProvider(network: Option<int>, registry: seq<ContractInfo>): (r: Option<ContractInfo>)
    ensures network.None? ==> r.None?
    ensures network.Some? ==> r == FindContract(registry, network.value)
    ensures r.Some? ==> r.value in registry && r.value.chainID == network.value
  {
    match network
    case None => None
    case Some(chainId) => FindContract(registry, chainId)
  }

  /** The first match is the only one a registry with one entry per chain id can give. */
  lemma FindContractUnique(registry: seq<ContractInfo>, chainId: int, i: nat)
    requires forall j, k :: 0 <= j < k < |registry| ==> registry[j].chainID != registry[k].chainID
    requires i < |registry| && registry[i].chainID == chainId
    ensures FindContract(registry, chainId) == Some(registry[i])
  {
    var r := FindContract(registry, chainId);
    var m :| 0 <= m < |registry| && registry[m] == r.value && registry[m].chainID == chainId
      && forall j :: 0 <= j < m ==> registry[j].chainID != chainId;
  }
}
