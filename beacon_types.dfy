/**
 * The consensus-layer values the synchronizer and the slot page read: block
 * headers, block bodies, blob sidecars and epoch duty assignments, as the
 * chain-node client decodes them. Only the fields the modelled code reads are
 * kept; every unsigned quantity is a `nat`.
 */
module BeaconTypes {
  import opened Wrappers

  newtype byte = x: int | 0 <= x < 256
  type Bytes = seq<byte>

  datatype BeaconBlockHeader = BeaconBlockHeader(
    slot: nat, proposerIndex: nat, parentRoot: Bytes, stateRoot: Bytes, bodyRoot: Bytes)

  datatype SignedBeaconBlockHeader = SignedBeaconBlockHeader(
    message: BeaconBlockHeader, signature: Bytes)

  datatype Checkpoint = Checkpoint(epoch: nat, root: Bytes)

  datatype AttestationData = AttestationData(
    slot: nat, index: nat, beaconBlockRoot: Bytes, source: Checkpoint, target: Checkpoint)

  datatype Attestation = Attestation(
    aggregationBits: Bytes, data: AttestationData, signature: Bytes)

  datatype IndexedAttestation = IndexedAttestation(
    attestingIndices: seq<nat>, data: AttestationData, signature: Bytes)

  datatype AttesterSlashing = AttesterSlashing(
    attestation1: IndexedAttestation, attestation2: IndexedAttestation)

  datatype ProposerSlashing = ProposerSlashing(
    signedHeader1: SignedBeaconBlockHeader, signedHeader2: SignedBeaconBlockHeader)

  datatype DepositData = DepositData(
    pubkey: Bytes, withdrawalCredentials: Bytes, amount: nat, signature: Bytes)

  datatype Deposit = Deposit(data: DepositData)

  datatype VoluntaryExit = VoluntaryExit(epoch: nat, validatorIndex: nat)

  datatype SignedVoluntaryExit = SignedVoluntaryExit(message: VoluntaryExit, signature: Bytes)

  datatype Eth1Data = Eth1Data(depositRoot: Bytes, depositCount: nat, blockHash: Bytes)

  datatype SyncAggregate = SyncAggregate(syncCommitteeBits: Bytes, syncCommitteeSignature: Bytes)

  datatype Withdrawal = Withdrawal(index: nat, validatorIndex: nat, address: Bytes, amount: nat)

  datatype ExecutionPayload = ExecutionPayload(
    parentHash: Bytes, feeRecipient: Bytes, stateRoot: Bytes, receiptsRoot: Bytes,
    logsBloom: Bytes, prevRandao: Bytes, blockNumber: nat, gasLimit: nat, gasUsed: nat,
    timestamp: nat, extraData: Bytes, baseFeePerGas: nat, blockHash: Bytes,
    transactions: seq<Bytes>, withdrawals: seq<Withdrawal>)

  datatype BLSToExecutionChange = BLSToExecutionChange(
    validatorIndex: nat, fromBlsPubkey: Bytes, toExecutionAddress: Bytes)

  datatype SignedBLSToExecutionChange = SignedBLSToExecutionChange(
    message: BLSToExecutionChange, signature: Bytes)

  datatype BeaconBlockBody = BeaconBlockBody(
    randaoReveal: Bytes, eth1Data: Eth1Data, graffiti: Bytes,
    proposerSlashings: seq<ProposerSlashing>, attesterSlashings: seq<AttesterSlashing>,
    attestations: seq<Attestation>, deposits: seq<Deposit>,
    voluntaryExits: seq<SignedVoluntaryExit>, syncAggregate: SyncAggregate,
    executionPayload: ExecutionPayload,
    signedBlsToExecutionChange: seq<SignedBLSToExecutionChange>)

  datatype BeaconBlock = BeaconBlock(
    slot: nat, proposerIndex: nat, parentRoot: Bytes, stateRoot: Bytes, body: BeaconBlockBody)

  datatype SignedBeaconBlock = SignedBeaconBlock(message: BeaconBlock, signature: Bytes)

  datatype BlobSidecar = BlobSidecar(
    index: nat, blob: Bytes, kzgCommitment: Bytes, kzgProof: Bytes)

  /**
   * A block as the beacon service hands it to the slot page: the header reply
   * (its root and signed header), the block, the blob sidecars if they were
   * loaded (None is Go's nil response) and whether the block is orphaned.
   */
  datatype CombinedBlock = CombinedBlock(
    root: Bytes, header: SignedBeaconBlockHeader, block: SignedBeaconBlock,
    blobs: Option<seq<BlobSidecar>>, orphaned: bool)

  /**
   * The duty schedule of one epoch. Attester committees are keyed by the
   * string "<slot>-<committee index>", as the chain-node client builds them.
   */
  datatype EpochAssignments = EpochAssignments(
    dependentRoot: Bytes, dependentStateRef: string,
    proposerAssignments: map<nat, nat>, attestorAssignments: map<string, seq<nat>>,
    syncAssignments: seq<nat>)
}
