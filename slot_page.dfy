/**
 * The block part of the slot page: the views built from a block's body,
 * one array per kind of operation, each filled index by index, and the
 * fields that only appear from a given fork on.
 *
 * `names` stands for the validator-name lookup, `epochOfSlot` for the
 * slot-to-epoch conversion, `participation` for the share of set bits in a
 * sync-committee bitfield and `intersect` for the library intersection of
 * two index lists.
 */
module SlotPage {
  import opened Wrappers
  import opened BeaconTypes
  import opened SlotRoute
  import opened GoInts

  // ----------------------------------------------------------------------
  // Page values
  // ----------------------------------------------------------------------

  datatype ValidatorView = ValidatorView(index: nat, name: string)

  datatype AttestationView = AttestationView(
    slot: nat, committeeIndex: nat, aggregationBits: Bytes, validators: seq<ValidatorView>,
    signature: Bytes, beaconBlockRoot: Bytes, sourceEpoch: nat, sourceRoot: Bytes,
    targetEpoch: nat, targetRoot: Bytes)

  datatype DepositView = DepositView(
    publicKey: Bytes, withdrawalCredentials: Bytes, amount: nat, signature: Bytes)

  datatype VoluntaryExitView = VoluntaryExitView(
    validatorIndex: nat, validatorName: string, epoch: nat, signature: Bytes)

  /** One of the two attestations of an attester slashing, as shown. */
  datatype SlashedAttestationView = SlashedAttestationView(
    indices: seq<nat>, signature: Bytes, slot: nat, index: nat, beaconBlockRoot: Bytes,
    sourceEpoch: nat, sourceRoot: Bytes, targetEpoch: nat, targetRoot: Bytes)

  datatype AttesterSlashingView = AttesterSlashingView(
    attestation1: SlashedAttestationView, attestation2: SlashedAttestationView,
    slashedValidators: seq<ValidatorView>)

  /** One of the two headers of a proposer slashing, as shown. */
  datatype SlashedHeaderView = SlashedHeaderView(
    slot: nat, parentRoot: Bytes, stateRoot: Bytes, bodyRoot: Bytes, signature: Bytes)

  datatype ProposerSlashingView = ProposerSlashingView(
    proposerIndex: nat, proposerName: string, header1: SlashedHeaderView, header2: SlashedHeaderView)

  datatype SyncAggregateView = SyncAggregateView(
    bits: Bytes, signature: Bytes, committee: seq<nat>, participation: real)

  datatype ExecutionView = ExecutionView(
    parentHash: Bytes, feeRecipient: Bytes, stateRoot: Bytes, receiptsRoot: Bytes,
    logsBloom: Bytes, random: Bytes, gasLimit: nat, gasUsed: nat, timestamp: nat,
    extraData: Bytes, baseFeePerGas: nat, blockHash: Bytes, blockNumber: nat,
    transactionsCount: nat)

  datatype BlsChangeView = BlsChangeView(
    validatorIndex: nat, validatorName: string, blsPubkey: Bytes, address: Bytes, signature: Bytes)

  datatype WithdrawalView = WithdrawalView(
    index: nat, validatorIndex: nat, validatorName: string, address: Bytes, amount: nat)

  /** A blob sidecar, with a preview of at most 512 bytes of the blob. */
  datatype BlobView = BlobView(
    index: nat, kzgCommitment: Bytes, kzgProof: Bytes, blob: Bytes, blobShort: Bytes, isShort: bool)

  /**
   * The block data of the slot page. A fork-gated part is None (the BLS
   * changes, withdrawals and blobs with a count of 0) when the block's epoch
   * is before that fork.
   */
  datatype BlockPageData = BlockPageData(
    blockRoot: Bytes, parentRoot: Bytes, stateRoot: Bytes, signature: Bytes,
    randaoReveal: Bytes, graffiti: Bytes,
    eth1DepositRoot: Bytes, eth1DepositCount: nat, eth1BlockHash: Bytes,
    proposerSlashingsCount: nat, attesterSlashingsCount: nat, attestationsCount: nat,
    depositsCount: nat, voluntaryExitsCount: nat, slashingsCount: nat,
    attestations: seq<AttestationView>, deposits: seq<DepositView>,
    voluntaryExits: seq<VoluntaryExitView>, attesterSlashings: seq<AttesterSlashingView>,
    proposerSlashings: seq<ProposerSlashingView>,
    syncAggregate: Option<SyncAggregateView>, executionData: Option<ExecutionView>,
    blsChangesCount: nat, blsChanges: Option<seq<BlsChangeView>>,
    withdrawalsCount: nat, withdrawals: Option<seq<WithdrawalView>>,
    blobsCount: nat, blobs: Option<seq<BlobView>>)

  /** The first epochs of the Altair, Bellatrix, Capella and Deneb forks. */
  datatype ForkEpochs = ForkEpochs(altair: nat, bellatrix: nat, capella: nat, deneb: nat)

  // ----------------------------------------------------------------------
  // Committees
  // ----------------------------------------------------------------------

  /** The key of an attester committee in the duty schedule: "<slot>-<committee index>". */
  function CommitteeKey(slot: nat, index: nat): (r: string)
    ensures var p := NatToString(slot);
      && |r| > |p| && r[..|p|] == p && r[|p|] == '-' && r[|p| + 1..] == NatToString(index)
  {
    NatToString(slot) + "-" + NatToString(index)
  }

  /** Different (slot, committee index) pairs have different keys. */
  lemma CommitteeKeyInjective(slot1: nat, index1: nat, slot2: nat, index2: nat)
    requires CommitteeKey(slot1, index1) == CommitteeKey(slot2, index2)
    ensures slot1 == slot2 && index1 == index2
  {
    var p1, p2 := NatToString(slot1), NatToString(slot2);
    var key := CommitteeKey(slot1, index1);
    KeyLayout(p1, NatToString(index1));
    KeyLayout(p2, NatToString(index2));
    if |p1| != |p2| {
      // the shorter number's digits end where the other's continue
      assert false;
    }
    assert p1 == key[..|p1|] == p2;
    NatToStringInjective(slot1, slot2);
    assert NatToString(index1) == key[|p1| + 1..] == NatToString(index2);
    NatToStringInjective(index1, index2);
  }

  /** In `p + "-" + t`, the characters before the dash are those of `p`. */
  lemma KeyLayout(p: string, t: string)
    ensures |p + "-" + t| > |p| && (p + "-" + t)[|p|] == '-'
    ensures forall i :: 0 <= i < |p| ==> (p + "-" + t)[i] == p[i]
  {
  }

  /**
   * The validators of committee `index` at `slot`: the schedule's list for
   * its key, empty for a key it lacks and when no schedule was loaded.
   */
  function Committee(assignments: Option<EpochAssignments>, slot: nat, index: nat): (r: seq<nat>)
    ensures assignments.None? ==> r == []
    ensures assignments.Some? && CommitteeKey(slot, index) in assignments.value.attestorAssignments ==>
      r == assignments.value.attestorAssignments[CommitteeKey(slot, index)]
    ensures assignments.Some? && CommitteeKey(slot, index) !in assignments.value.attestorAssignments ==> r == []
  {
    match assignments
    case None => []
    case Some(a) =>
      var key := CommitteeKey(slot, index);
      if key in a.attestorAssignments then a.attestorAssignments[key] else []
  }

  /** `views` shows the validators `indices`, in order, each with its name. */
  predicate ShowsValidators(views: seq<ValidatorView>, indices: seq<nat>, names: nat -> string)
  {
    && |views| == |indices|
    && forall j :: 0 <= j < |views| ==> views[j] == ValidatorView(indices[j], names(indices[j]))
  }

  // ----------------------------------------------------------------------
  // What each view shows (handlers/slot.go:168-361)
  // ----------------------------------------------------------------------

  /** `v` shows attestation `a`: its data copied, and the validators of its committee, named. */
  predicate ShowsAttestation(
    v: AttestationView, a: Attestation, assignments: Option<EpochAssignments>, names: nat -> string)
  {
    && v.slot == a.data.slot && v.committeeIndex == a.data.index
    && v.aggregationBits == a.aggregationBits && v.signature == a.signature
    && v.beaconBlockRoot == a.data.beaconBlockRoot
    && v.sourceEpoch == a.data.source.epoch && v.sourceRoot == a.data.source.root
    && v.targetEpoch == a.data.target.epoch && v.targetRoot == a.data.target.root
    && ShowsValidators(v.validators, Committee(assignments, a.data.slot, a.data.index), names)
  }

  predicate ShowsDeposit(v: DepositView, d: Deposit)
  {
    v == DepositView(d.data.pubkey, d.data.withdrawalCredentials, d.data.amount, d.data.signature)
  }

  predicate ShowsVoluntaryExit(v: VoluntaryExitView, e: SignedVoluntaryExit, names: nat -> string)
  {
    var m := e.message;
    v == VoluntaryExitView(m.validatorIndex, names(m.validatorIndex), m.epoch, e.signature)
  }

  /** `v` shows one attestation of an attester slashing: its indices and every data field. */
  predicate ShowsSlashedAttestation(v: SlashedAttestationView, att: IndexedAttestation)
  {
    v == SlashedAttestationView(att.attestingIndices, att.signature, att.data.slot, att.data.index,
                                att.data.beaconBlockRoot, att.data.source.epoch, att.data.source.root,
                                att.data.target.epoch, att.data.target.root)
  }

  /**
   * `v` shows attester slashing `s`: both attestations, and as slashed
   * validators the entries of the intersection of the two index lists, in
   * order, each named.
   */
  predicate ShowsAttesterSlashing(
    v: AttesterSlashingView, s: AttesterSlashing, names: nat -> string,
    intersect: (seq<nat>, seq<nat>) -> seq<nat>)
  {
    && ShowsSlashedAttestation(v.attestation1, s.attestation1)
    && ShowsSlashedAttestation(v.attestation2, s.attestation2)
    && ShowsValidators(v.slashedValidators,
                       intersect(s.attestation1.attestingIndices, s.attestation2.attestingIndices), names)
  }

  function HeaderView(h: SignedBeaconBlockHeader): SlashedHeaderView
  {
    SlashedHeaderView(h.message.slot, h.message.parentRoot, h.message.stateRoot,
                      h.message.bodyRoot, h.signature)
  }

  /** `v` shows proposer slashing `s`: the first header's proposer, named, and both headers. */
  predicate ShowsProposerSlashing(v: ProposerSlashingView, s: ProposerSlashing, names: nat -> string)
  {
    var p := s.signedHeader1.message.proposerIndex;
    v == ProposerSlashingView(p, names(p), HeaderView(s.signedHeader1), HeaderView(s.signedHeader2))
  }

  predicate ShowsBlsChange(v: BlsChangeView, c: SignedBLSToExecutionChange, names: nat -> string)
  {
    var m := c.message;
    v == BlsChangeView(m.validatorIndex, names(m.validatorIndex), m.fromBlsPubkey,
                       m.toExecutionAddress, c.signature)
  }

  predicate ShowsWithdrawal(v: WithdrawalView, w: Withdrawal, names: nat -> string)
  {
    v == WithdrawalView(w.index, w.validatorIndex, names(w.validatorIndex), w.address, w.amount)
  }

  /** The number of blob bytes the page previews. */
  const BlobPreviewLength: nat := 512

  /**
   * `preview` is what the page shows of `blob`: a prefix of it, the whole
   * blob when it fits in 512 bytes and exactly 512 bytes (marked short)
   * otherwise.
   */
  predicate IsBlobPreview(blob: Bytes, preview: Bytes, isShort: bool)
  {
    && preview <= blob
    && |preview| <= BlobPreviewLength
    && (isShort <==> |blob| > BlobPreviewLength)
    && (isShort ==> |preview| == BlobPreviewLength)
    && (!isShort ==> preview == blob)
  }

  /** There is exactly one preview of each blob. */
  lemma BlobPreviewUnique(blob: Bytes, p1: Bytes, s1: bool, p2: Bytes, s2: bool)
    requires IsBlobPreview(blob, p1, s1) && IsBlobPreview(blob, p2, s2)
    ensures p1 == p2 && s1 == s2
  {
    if s1 {
      assert p1 == blob[..BlobPreviewLength] == p2;
    }
  }

  /** `v` shows blob sidecar `b`: its index, commitment, proof and blob, and the blob's preview. */
  predicate ShowsBlob(v: BlobView, b: BlobSidecar)
  {
    && v.index == b.index && v.kzgCommitment == b.kzgCommitment && v.kzgProof == b.kzgProof
    && v.blob == b.blob && IsBlobPreview(v.blob, v.blobShort, v.isShort)
  }

  /** `v` shows the execution payload `p`: thirteen fields copied and the number of transactions. */
  predicate ShowsExecution(v: ExecutionView, p: ExecutionPayload)
  {
    v == ExecutionView(p.parentHash, p.feeRecipient, p.stateRoot, p.receiptsRoot, p.logsBloom,
                       p.prevRandao, p.gasLimit, p.gasUsed, p.timestamp, p.extraData,
                       p.baseFeePerGas, p.blockHash, p.blockNumber, |p.transactions|)
  }

  /**
   * `v` shows the sync aggregate `agg`: its bits and signature, the epoch's
   * sync committee (empty without a schedule) and the bits' participation.
   */
  predicate ShowsSyncAggregate(
    v: SyncAggregateView, agg: SyncAggregate, assignments: Option<EpochAssignments>,
    participation: Bytes -> real)
  {
    && v.bits == agg.syncCommitteeBits && v.signature == agg.syncCommitteeSignature
    && v.committee == (if assignments.Some? then assignments.value.syncAssignments else [])
    && v.participation == participation(agg.syncCommitteeBits)
  }

  // ----------------------------------------------------------------------
  // Array builders (handlers/slot.go:168-278, 314-361)
  // ----------------------------------------------------------------------

  /** The validator array of one attestation, filled index by index. */
  method ValidatorViews(indices: seq<nat>, names: nat -> string) returns (r: seq<ValidatorView>)
    ensures ShowsValidators(r, indices, names)
  {
    var a := new ValidatorView[|indices|];
    for j := 0 to |indices|
      invariant forall k :: 0 <= k < j ==> a[k] == ValidatorView(indices[k], names(indices[k]))
    {
      a[j] := ValidatorView(indices[j], names(indices[j]));
    }
    r := a[..];
  }

  /**
   * One view per attestation, in order: its data copied, and its validators
   * those of its committee in the duty schedule.
   */
  method AttestationViews(
    attestations: seq<Attestation>, assignments: Option<EpochAssignments>, names: nat -> string)
    returns (r: seq<AttestationView>)
    ensures |r| == |attestations|
    ensures forall i :: 0 <= i < |r| ==> ShowsAttestation(r[i], attestations[i], assignments, names)
  {
    var a := new AttestationView[|attestations|];
    for i := 0 to |attestations|
      invariant forall k :: 0 <= k < i ==> ShowsAttestation(a[k], attestations[k], assignments, names)
    {
      var attestation := attestations[i];
      var attAssignments: seq<nat>;
      if assignments.Some? {
        var key := CommitteeKey(attestation.data.slot, attestation.data.index);
        attAssignments := if key in assignments.value.attestorAssignments
                          then assignments.value.attestorAssignments[key] else [];
      } else {
        attAssignments := [];
      }
      var validators := ValidatorViews(attAssignments, names);
      var d := attestation.data;
      a[i] := AttestationView(d.slot, d.index, attestation.aggregationBits, validators,
                              attestation.signature, d.beaconBlockRoot, d.source.epoch,
                              d.source.root, d.target.epoch, d.target.root);
    }
    r := a[..];
  }

  /** One view per deposit, in order, with the deposit data copied. */
  method DepositViews(deposits: seq<Deposit>) returns (r: seq<DepositView>)
    ensures |r| == |deposits|
    ensures forall i :: 0 <= i < |r| ==> ShowsDeposit(r[i], deposits[i])
  {
    var a := new DepositView[|deposits|];
    for i := 0 to |deposits|
      invariant forall k :: 0 <= k < i ==> ShowsDeposit(a[k], deposits[k])
    {
      var deposit := deposits[i];
      a[i] := DepositView(deposit.data.pubkey, deposit.data.withdrawalCredentials,
                          deposit.data.amount, deposit.data.signature);
    }
    r := a[..];
  }

  /** One view per voluntary exit, in order, with the exiting validator named. */
  method VoluntaryExitViews(exits: seq<SignedVoluntaryExit>, names: nat -> string)
    returns (r: seq<VoluntaryExitView>)
    ensures |r| == |exits|
    ensures forall i :: 0 <= i < |r| ==> ShowsVoluntaryExit(r[i], exits[i], names)
  {
    var a := new VoluntaryExitView[|exits|];
    for i := 0 to |exits|
      invariant forall k :: 0 <= k < i ==> ShowsVoluntaryExit(a[k], exits[k], names)
    {
      var exit := exits[i];
      a[i] := VoluntaryExitView(exit.message.validatorIndex, names(exit.message.validatorIndex),
                                exit.message.epoch, exit.signature);
    }
    r := a[..];
  }

  /** An element-by-element copy of an index list. */
  method CopyIndices(src: seq<nat>) returns (r: seq<nat>)
    ensures |r| == |src|
    ensures forall j :: 0 <= j < |r| ==> r[j] == src[j]
  {
    var a := new nat[|src|];
    for j := 0 to |src|
      invariant forall k :: 0 <= k < j ==> a[k] == src[k]
    {
      a[j] := src[j];
    }
    r := a[..];
  }

  /** `intersect(a, b)` only yields entries of both lists. */
  ghost predicate IsIntersection(intersect: (seq<nat>, seq<nat>) -> seq<nat>)
  {
    forall a, b, x :: x in intersect(a, b) ==> x in a && x in b
  }

  /** An attestation of a slashing, with its attesting indices copied. */
  method SlashedAttestation(att: IndexedAttestation) returns (v: SlashedAttestationView)
    ensures ShowsSlashedAttestation(v, att)
  {
    var indices := CopyIndices(att.attestingIndices);
    v := SlashedAttestationView(indices, att.signature, att.data.slot, att.data.index,
                                att.data.beaconBlockRoot, att.data.source.epoch, att.data.source.root,
                                att.data.target.epoch, att.data.target.root);
  }

  /**
   * One attester slashing: both attestations with their index lists copied,
   * and the slashed validators, appended one by one from the intersection of
   * the two lists, so each of them appears in both attestations.
   */
  method AttesterSlashingViewOf(
    slashing: AttesterSlashing, names: nat -> string, intersect: (seq<nat>, seq<nat>) -> seq<nat>)
    returns (v: AttesterSlashingView)
    requires IsIntersection(intersect)
    ensures ShowsAttesterSlashing(v, slashing, names, intersect)
    ensures forall j :: 0 <= j < |v.slashedValidators| ==>
      v.slashedValidators[j].index in v.attestation1.indices &&
      v.slashedValidators[j].index in v.attestation2.indices
  {
    var attestation1 := SlashedAttestation(slashing.attestation1);
    var attestation2 := SlashedAttestation(slashing.attestation2);
    var inter := intersect(slashing.attestation1.attestingIndices, slashing.attestation2.attestingIndices);
    var slashed: seq<ValidatorView> := [];
    for j := 0 to |inter|
      invariant ShowsValidators(slashed, inter[..j], names)
    {
      slashed := slashed + [ValidatorView(inter[j], names(inter[j]))];
    }
    assert inter[..|inter|] == inter;
    v := AttesterSlashingView(attestation1, attestation2, slashed);
    forall j | 0 <= j < |v.slashedValidators|
      ensures v.slashedValidators[j].index in v.attestation1.indices
      ensures v.slashedValidators[j].index in v.attestation2.indices
    {
      assert inter[j] in inter;
    }
  }

  /** One view per attester slashing, in order. */
  method AttesterSlashingViews(
    slashings: seq<AttesterSlashing>, names: nat -> string, intersect: (seq<nat>, seq<nat>) -> seq<nat>)
    returns (r: seq<AttesterSlashingView>)
    requires IsIntersection(intersect)
    ensures |r| == |slashings|
    ensures forall i :: 0 <= i < |r| ==> ShowsAttesterSlashing(r[i], slashings[i], names, intersect)
    ensures forall i, j :: 0 <= i < |r| && 0 <= j < |r[i].slashedValidators| ==>
      r[i].slashedValidators[j].index in slashings[i].attestation1.attestingIndices &&
      r[i].slashedValidators[j].index in slashings[i].attestation2.attestingIndices
  {
    var a := new AttesterSlashingView[|slashings|];
    for i := 0 to |slashings|
      invariant forall k :: 0 <= k < i ==>
        && ShowsAttesterSlashing(a[k], slashings[k], names, intersect)
        && (forall j :: 0 <= j < |a[k].slashedValidators| ==>
              a[k].slashedValidators[j].index in slashings[k].attestation1.attestingIndices &&
              a[k].slashedValidators[j].index in slashings[k].attestation2.attestingIndices)
    {
      a[i] := AttesterSlashingViewOf(slashings[i], names, intersect);
    }
    r := a[..];
  }

  /** One view per proposer slashing, in order; the proposer is the first header's. */
  method ProposerSlashingViews(slashings: seq<ProposerSlashing>, names: nat -> string)
    returns (r: seq<ProposerSlashingView>)
    ensures |r| == |slashings|
    ensures forall i :: 0 <= i < |r| ==> ShowsProposerSlashing(r[i], slashings[i], names)
  {
    var a := new ProposerSlashingView[|slashings|];
    for i := 0 to |slashings|
      invariant forall k :: 0 <= k < i ==> ShowsProposerSlashing(a[k], slashings[k], names)
    {
      var slashing := slashings[i];
      var proposer := slashing.signedHeader1.message.proposerIndex;
      a[i] := ProposerSlashingView(proposer, names(proposer), HeaderView(slashing.signedHeader1),
                                   HeaderView(slashing.signedHeader2));
    }
    r := a[..];
  }

  /** One view per BLS-to-execution change, in order, with the validator named. */
  method BlsChangeViews(changes: seq<SignedBLSToExecutionChange>, names: nat -> string)
    returns (r: seq<BlsChangeView>)
    ensures |r| == |changes|
    ensures forall i :: 0 <= i < |r| ==> ShowsBlsChange(r[i], changes[i], names)
  {
    var a := new BlsChangeView[|changes|];
    for i := 0 to |changes|
      invariant forall k :: 0 <= k < i ==> ShowsBlsChange(a[k], changes[k], names)
    {
      var change := changes[i];
      a[i] := BlsChangeView(change.message.validatorIndex, names(change.message.validatorIndex),
                            change.message.fromBlsPubkey, change.message.toExecutionAddress,
                            change.signature);
    }
    r := a[..];
  }

  /** One view per withdrawal, in order, with the validator named. */
  method WithdrawalViews(withdrawals: seq<Withdrawal>, names: nat -> string)
    returns (r: seq<WithdrawalView>)
    ensures |r| == |withdrawals|
    ensures forall i :: 0 <= i < |r| ==> ShowsWithdrawal(r[i], withdrawals[i], names)
  {
    var a := new WithdrawalView[|withdrawals|];
    for i := 0 to |withdrawals|
      invariant forall k :: 0 <= k < i ==> ShowsWithdrawal(a[k], withdrawals[k], names)
    {
      var withdrawal := withdrawals[i];
      a[i] := WithdrawalView(withdrawal.index, withdrawal.validatorIndex,
                             names(withdrawal.validatorIndex), withdrawal.address, withdrawal.amount);
    }
    r := a[..];
  }

  /** One view per blob sidecar, in order, each with its preview. */
  method BlobViews(blobs: seq<BlobSidecar>) returns (r: seq<BlobView>)
    ensures |r| == |blobs|
    ensures forall i :: 0 <= i < |r| ==> ShowsBlob(r[i], blobs[i])
  {
    var a := new BlobView[|blobs|];
    for i := 0 to |blobs|
      invariant forall k :: 0 <= k < i ==> ShowsBlob(a[k], blobs[k])
    {
      var blob := blobs[i];
      var blobData := BlobView(blob.index, blob.kzgCommitment, blob.kzgProof, blob.blob, [], false);
      if |blob.blob| > BlobPreviewLength {
        blobData := blobData.(blobShort := blob.blob[0..BlobPreviewLength], isShort := true);
      } else {
        blobData := blobData.(blobShort := blob.blob);
      }
      a[i] := blobData;
    }
    r := a[..];
  }

  // ----------------------------------------------------------------------
  // getSlotPageBlockData (handlers/slot.go:149-364)
  // ----------------------------------------------------------------------

  /**
   * `page` is the block data of the slot page for `blockData`: the header and
   * body fields; per operation list a count and one view per entry, in
   * order; the slashings total; and each part a fork introduced, present
   * exactly from that fork's epoch on (the blobs also only when the sidecars
   * were loaded), with a count of 0 while absent.
   */
  predicate IsBlockPage(
    page: BlockPageData, blockData: CombinedBlock, assignments: Option<EpochAssignments>,
    forks: ForkEpochs, epochOfSlot: nat -> nat, names: nat -> string, participation: Bytes -> real,
    intersect: (seq<nat>, seq<nat>) -> seq<nat>)
  {
    && ShowsBlockFields(page, blockData)
    && ShowsOperations(page, blockData.block.message.body, assignments, names, intersect)
    && ShowsForkParts(page, blockData, assignments, forks, epochOfSlot, names, participation)
  }

  /** The header and body fields of the page, and one count per operation list. */
  predicate ShowsBlockFields(page: BlockPageData, blockData: CombinedBlock)
  {
    var m := blockData.header.message;
    var body := blockData.block.message.body;
    && page.blockRoot == blockData.root && page.parentRoot == m.parentRoot
    && page.stateRoot == m.stateRoot && page.signature == blockData.header.signature
    && page.randaoReveal == body.randaoReveal && page.graffiti == body.graffiti
    && page.eth1DepositRoot == body.eth1Data.depositRoot
    && page.eth1DepositCount == body.eth1Data.depositCount
    && page.eth1BlockHash == body.eth1Data.blockHash
    && page.proposerSlashingsCount == |body.proposerSlashings|
    && page.attesterSlashingsCount == |body.attesterSlashings|
    && page.attestationsCount == |body.attestations|
    && page.depositsCount == |body.deposits|
    && page.voluntaryExitsCount == |body.voluntaryExits|
    && page.slashingsCount == page.proposerSlashingsCount + page.attesterSlashingsCount
  }

  /** One view per entry of each operation list of the body, in order. */
  predicate ShowsOperations(
    page: BlockPageData, body: BeaconBlockBody, assignments: Option<EpochAssignments>,
    names: nat -> string, intersect: (seq<nat>, seq<nat>) -> seq<nat>)
  {
    && |page.attestations| == |body.attestations|
    && (forall i :: 0 <= i < |page.attestations| ==>
          ShowsAttestation(page.attestations[i], body.attestations[i], assignments, names))
    && |page.deposits| == |body.deposits|
    && (forall i :: 0 <= i < |page.deposits| ==> ShowsDeposit(page.deposits[i], body.deposits[i]))
    && |page.voluntaryExits| == |body.voluntaryExits|
    && (forall i :: 0 <= i < |page.voluntaryExits| ==>
          ShowsVoluntaryExit(page.voluntaryExits[i], body.voluntaryExits[i], names))
    && |page.attesterSlashings| == |body.attesterSlashings|
    && (forall i :: 0 <= i < |page.attesterSlashings| ==>
          ShowsAttesterSlashing(page.attesterSlashings[i], body.attesterSlashings[i], names, intersect))
    && |page.proposerSlashings| == |body.proposerSlashings|
    && (forall i :: 0 <= i < |page.proposerSlashings| ==>
          ShowsProposerSlashing(page.proposerSlashings[i], body.proposerSlashings[i], names))
  }

  /**
   * The parts a fork introduced: each present exactly from that fork's epoch
   * on (the blobs also only when the sidecars were loaded), with a count of 0
   * while absent.
   */
  predicate ShowsForkParts(
    page: BlockPageData, blockData: CombinedBlock, assignments: Option<EpochAssignments>,
    forks: ForkEpochs, epochOfSlot: nat -> nat, names: nat -> string, participation: Bytes -> real)
  {
    var body := blockData.block.message.body;
    var epoch := epochOfSlot(blockData.header.message.slot);
    && (page.syncAggregate.Some? <==> epoch >= forks.altair)
    && (page.syncAggregate.Some? ==>
          ShowsSyncAggregate(page.syncAggregate.value, body.syncAggregate, assignments, participation))
    && (page.executionData.Some? <==> epoch >= forks.bellatrix)
    && (page.executionData.Some? ==> ShowsExecution(page.executionData.value, body.executionPayload))
    && (page.blsChanges.Some? <==> epoch >= forks.capella)
    && (page.blsChanges.None? ==> page.blsChangesCount == 0)
    && (page.blsChanges.Some? ==>
          && page.blsChangesCount == |body.signedBlsToExecutionChange| == |page.blsChanges.value|
          && forall i :: 0 <= i < |page.blsChanges.value| ==>
               ShowsBlsChange(page.blsChanges.value[i], body.signedBlsToExecutionChange[i], names))
    && (page.withdrawals.Some? <==> epoch >= forks.capella)
    && (page.withdrawals.None? ==> page.withdrawalsCount == 0)
    && (page.withdrawals.Some? ==>
          && page.withdrawalsCount == |body.executionPayload.withdrawals| == |page.withdrawals.value|
          && forall i :: 0 <= i < |page.withdrawals.value| ==>
               ShowsWithdrawal(page.withdrawals.value[i], body.executionPayload.withdrawals[i], names))
    && (page.blobs.Some? <==> epoch >= forks.deneb && blockData.blobs.Some?)
    && (page.blobs.None? ==> page.blobsCount == 0)
    && (page.blobs.Some? ==>
          && page.blobsCount == |blockData.blobs.value| == |page.blobs.value|
          && forall i :: 0 <= i < |page.blobs.value| ==> ShowsBlob(page.blobs.value[i], blockData.blobs.value[i]))
  }

  /**
   * The block data of the slot page, built as `IsBlockPage` describes; every
   * slashed validator shown appears in both attestations of its slashing.
   */
  method BuildBlockPageData(
    blockData: CombinedBlock, assignments: Option<EpochAssignments>, forks: ForkEpochs,
    epochOfSlot: nat -> nat, names: nat -> string, participation: Bytes -> real,
    intersect: (seq<nat>, seq<nat>) -> seq<nat>)
    returns (page: BlockPageData)
    requires IsIntersection(intersect)
    ensures IsBlockPage(page, blockData, assignments, forks, epochOfSlot, names, participation, intersect)
    ensures var slashings := blockData.block.message.body.attesterSlashings;
      forall i, j :: 0 <= i < |page.attesterSlashings| && 0 <= j < |page.attesterSlashings[i].slashedValidators| ==>
        page.attesterSlashings[i].slashedValidators[j].index in slashings[i].attestation1.attestingIndices &&
        page.attesterSlashings[i].slashedValidators[j].index in slashings[i].attestation2.attestingIndices
  {
    var header := blockData.header;
    var body := blockData.block.message.body;
    var attestations := AttestationViews(body.attestations, assignments, names);
    var deposits := DepositViews(body.deposits);
    var voluntaryExits := VoluntaryExitViews(body.voluntaryExits, names);
    var attesterSlashings := AttesterSlashingViews(body.attesterSlashings, names, intersect);
    var proposerSlashings := ProposerSlashingViews(body.proposerSlashings, names);

    var epoch := epochOfSlot(header.message.slot);
    var syncAggregate: Option<SyncAggregateView> := None;
    if epoch >= forks.altair {
      var agg := body.syncAggregate;
      var committee := if assignments.Some? then assignments.value.syncAssignments else [];
      syncAggregate := Some(SyncAggregateView(agg.syncCommitteeBits, agg.syncCommitteeSignature,
                                              committee, participation(agg.syncCommitteeBits)));
    }
    var executionData: Option<ExecutionView> := None;
    if epoch >= forks.bellatrix {
      var p := body.executionPayload;
      executionData := Some(ExecutionView(
        p.parentHash, p.feeRecipient, p.stateRoot, p.receiptsRoot, p.logsBloom, p.prevRandao,
        p.gasLimit, p.gasUsed, p.timestamp, p.extraData, p.baseFeePerGas, p.blockHash,
        p.blockNumber, |p.transactions|));
    }
    var blsChangesCount, withdrawalsCount := 0, 0;
    var blsChanges: Option<seq<BlsChangeView>>, withdrawals: Option<seq<WithdrawalView>> := None, None;
    if epoch >= forks.capella {
      var changes := BlsChangeViews(body.signedBlsToExecutionChange, names);
      var ws := WithdrawalViews(body.executionPayload.withdrawals, names);
      blsChangesCount, blsChanges := |body.signedBlsToExecutionChange|, Some(changes);
      withdrawalsCount, withdrawals := |body.executionPayload.withdrawals|, Some(ws);
    }
    var blobsCount := 0;
    var blobs: Option<seq<BlobView>> := None;
    if epoch >= forks.deneb && blockData.blobs.Some? {
      var views := BlobViews(blockData.blobs.value);
      blobsCount, blobs := |blockData.blobs.value|, Some(views);
    }

    page := BlockPageData(
      blockData.root, header.message.parentRoot, header.message.stateRoot, header.signature,
      body.randaoReveal, body.graffiti,
      body.eth1Data.depositRoot, body.eth1Data.depositCount, body.eth1Data.blockHash,
      |body.proposerSlashings|, |body.attesterSlashings|, |body.attestations|,
      |body.deposits|, |body.voluntaryExits|, |body.proposerSlashings| + |body.attesterSlashings|,
      attestations, deposits, voluntaryExits, attesterSlashings, proposerSlashings,
      syncAggregate, executionData, blsChangesCount, blsChanges, withdrawalsCount, withdrawals,
      blobsCount, blobs);
    assert ShowsBlockFields(page, blockData);
    assert ShowsOperations(page, body, assignments, names, intersect);
    assert ShowsForkParts(page, blockData, assignments, forks, epochOfSlot, names, participation);
  }

  // ----------------------------------------------------------------------
  // The page (handlers/slot.go:105-139)
  // ----------------------------------------------------------------------

  datatype SlotPageData = SlotPageData(headline: SlotHeadline, block: Option<BlockPageData>)

  /**
   * The slot page: the headline fields, and the block data exactly when a
   * block (canonical or orphaned) was found for the slot.
   */
  method BuildSlotPage(
    slot: nat, finalizedHeadSlot: nat, blockData: Option<CombinedBlock>,
    assignments: Option<EpochAssignments>, forks: ForkEpochs, epochOfSlot: nat -> nat,
    names: nat -> string, participation: Bytes -> real, intersect: (seq<nat>, seq<nat>) -> seq<nat>)
    returns (page: SlotPageData)
    requires slot < Uint64Modulus && IsIntersection(intersect)
    requires blockData.Some? ==> slot == blockData.value.header.message.slot
    ensures page.headline == Headline(slot, finalizedHeadSlot, blockData, assignments, epochOfSlot, names)
    ensures page.block.Some? <==> blockData.Some?
    ensures page.block.Some? ==>
      IsBlockPage(page.block.value, blockData.value, assignments, forks, epochOfSlot, names,
                  participation, intersect)
  {
    var headline := Headline(slot, finalizedHeadSlot, blockData, assignments, epochOfSlot, names);
    page := SlotPageData(headline, None);
    if blockData.Some? {
      var block := BuildBlockPageData(blockData.value, assignments, forks, epochOfSlot, names,
                                      participation, intersect);
      page := page.(block := Some(block));
    }
  }
}
