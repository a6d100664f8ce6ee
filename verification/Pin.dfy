/** The pinned vault identity, the locked constants, and the chain facts a caller supplies. */
module Pin {
  import opened Basics
  import opened Bitcoin

  const SAFETY_MARGIN_BLOCKS: U32 := 1008
  const WALL_CLOCK_SECONDS_PER_BLOCK: U64 := 600
  const VELOCITY_PER_SIG_SATS: U64 := 10_000_000
  const VELOCITY_PER_144_SATS: U64 := 50_000_000
  const VELOCITY_WINDOW_BLOCKS: U32 := 144
  const OOB_CONFIRM_SATS: U64 := 5_000_000
  const MAX_POLICY_FEE_SATS: U64 := 1_000_000
  const MAX_POLICY_INPUTS: nat := 100

  datatype Network = Mainnet | Testnet | Testnet4 | Signet | Regtest

  datatype AgentPin = AgentPin(
    genesisHash: Bytes32,
    csvBlocks: U32,
    primaryPubkey: PubKey,
    overridePubkey: PubKey,
    agentPubkey: PubKey,
    safetyMargin: U32,
    velocityPerSigSats: U64,
    velocityPer144Sats: U64,
    confirmThresholdSats: U64,
    wallClockSecondsPerBlock: U64,
    scriptPubkey: Script,
    witnessScript: Script)
  {
    predicate ContainsPubkey(pk: PubKey) {
      pk == primaryPubkey || pk == overridePubkey || pk == agentPubkey
    }

    /** What provisioning, the only constructor of a pin, establishes. */
    predicate Provisioned() {
      && 1 <= csvBlocks <= 0xFFFF
      && safetyMargin == SAFETY_MARGIN_BLOCKS
      && velocityPerSigSats == VELOCITY_PER_SIG_SATS
      && velocityPer144Sats == VELOCITY_PER_144_SATS
      && confirmThresholdSats == OOB_CONFIRM_SATS
      && wallClockSecondsPerBlock == WALL_CLOCK_SECONDS_PER_BLOCK
    }
  }

  datatype CompiledVault = CompiledVault(scriptPubkey: Script, witnessScript: Script)

  predicate IsEnabled(network: Network) {
    network.Regtest? || network.Testnet? || network.Signet?
  }

  /** `compile` is the descriptor compiler with its sanity checks; it gives no vault for some keys, such as
      equal ones. The genesis hash is the network's own. */
  function Provision(compile: (PubKey, PubKey, PubKey, U32) -> Option<CompiledVault>, network: Network,
                     genesisHash: Bytes32, primary: PubKey, overrideKey: PubKey, agent: PubKey, csvBlocks: U32)
    : (r: PolicyResult<AgentPin>)
    ensures r.Ok? <==> network in {Regtest, Testnet, Signet} && 1 <= csvBlocks <= 0xFFFF
                       && compile(primary, overrideKey, agent, csvBlocks).Some?
    ensures r.Err? ==> r == Err(if network in {Regtest, Testnet, Signet} then DescriptorMismatch else WrongNetwork)
    ensures r.Ok? ==>
              var pin := r.value;
              && pin.Provisioned() && pin.genesisHash == genesisHash && pin.csvBlocks == csvBlocks
              && pin.primaryPubkey == primary && pin.overridePubkey == overrideKey && pin.agentPubkey == agent
              && compile(primary, overrideKey, agent, csvBlocks)
                 == Some(CompiledVault(pin.scriptPubkey, pin.witnessScript))
  {
    if network == Mainnet then Err(WrongNetwork)
    else if !IsEnabled(network) then Err(WrongNetwork)
    else if csvBlocks == 0 || csvBlocks > 0xFFFF then Err(DescriptorMismatch)
    else
      match compile(primary, overrideKey, agent, csvBlocks)
      case None => Err(DescriptorMismatch)
      case Some(vault) =>
        Ok(AgentPin(genesisHash, csvBlocks, primary, overrideKey, agent, SAFETY_MARGIN_BLOCKS,
                    VELOCITY_PER_SIG_SATS, VELOCITY_PER_144_SATS, OOB_CONFIRM_SATS,
                    WALL_CLOCK_SECONDS_PER_BLOCK, vault.scriptPubkey, vault.witnessScript))
  }

  datatype PrevoutFact = PrevoutFact(
    outpoint: OutPoint,
    value: U64,
    scriptPubkey: Script,
    confirmHeight: U32,
    headerTimeUnix: U64,
    visibleUnspent: bool)

  datatype ChainView = ChainView(
    genesisHash: Bytes32,
    tipHeight: U32,
    nowUnix: U64,
    prevouts: seq<PrevoutFact>)

  /** The first fact about an outpoint. */
  function FindFact(facts: seq<PrevoutFact>, op: OutPoint): (r: Option<PrevoutFact>)
    ensures r.Some? ==> r.value in facts && r.value.outpoint == op
    ensures r.None? ==> forall f :: f in facts ==> f.outpoint != op
  {
    if facts == [] then None
    else if facts[0].outpoint == op then Some(facts[0])
    else FindFact(facts[1..], op)
  }

  lemma {:induction false} FindFactIsFirst(facts: seq<PrevoutFact>, op: OutPoint, i: nat)
    requires i < |facts| && facts[i].outpoint == op
    requires forall j :: 0 <= j < i ==> facts[j].outpoint != op
    ensures FindFact(facts, op) == Some(facts[i])
  {
    if i == 0 {
    } else {
      FindFactIsFirst(facts[1..], op, i - 1);
    }
  }
}
