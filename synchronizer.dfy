/**
 * The indexer's synchronizer: the background worker that walks finalized
 * epochs in order, keeps a two-epoch window of fetched blocks in a slot-keyed
 * cache, and persists each epoch in one database transaction that also moves
 * the persisted sync cursor.
 *
 * Every remote call, the database and the kill channel are inputs (`Env`): a
 * chain-node call answers with a value, "nil" or an error; a kill check at a
 * given checkpoint answers yes or no; each database step succeeds or fails.
 * The epoch step is the method `Synchronizer.SyncEpoch`, proved equal to the
 * function `SyncEpochSpec`; the lemmas below state what the step promises.
 */
module Synchronizer {
  import opened Wrappers
  import opened BeaconTypes
  import opened GoInts

  /** One cache entry: a fetched header and its block, keyed by slot. */
  datatype CacheBlock = CacheBlock(
    root: Bytes, slot: nat, header: SignedBeaconBlockHeader, block: SignedBeaconBlock)

  /** A header reply: the block root and the signed header. */
  datatype HeaderReply = HeaderReply(root: Bytes, header: SignedBeaconBlockHeader)

  /** A chain-node reply: a value, a nil value without an error, or an error. */
  datatype Rpc<T> = Ok(value: T) | Nil | Err

  /** The places where `syncEpoch` polls the kill channel. */
  datatype KillPoint = AfterAssignments | BeforeBlock(slot: nat) | AfterFetch | AfterStats

  /** The errors `syncEpoch` returns. */
  datatype SyncError =
    | AssignmentsError
    | HeaderError(slot: nat)
    | BlockError(slot: nat)
    | StatsError
    | BeginError
    | PersistError
    | SyncStateError
    | CommitError

  /** The validator-state snapshot; its content is not inspected here. */
  datatype ValidatorStats = ValidatorStats(balances: map<nat, nat>)

  datatype EpochStats = EpochStats(
    epoch: nat, dependentRoot: Bytes, proposerAssignments: map<nat, nat>,
    attestorAssignments: map<string, seq<nat>>, syncAssignments: seq<nat>,
    validatorStats: ValidatorStats)

  /** The aggregated votes of one epoch; their content is not modelled. */
  datatype EpochVotes = EpochVotes(tally: seq<nat>)

  /**
   * What one committed transaction made durable: the epoch's data as handed
   * to the persist call (the whole cache, the stats and the votes) and the
   * epoch written to the "indexer.syncstate" record.
   */
  datatype Commit = Commit(
    epoch: nat, blocks: map<nat, CacheBlock>, stats: EpochStats, votes: EpochVotes,
    syncStateEpoch: nat)

  /**
   * The answers of everything `syncEpoch` consults. A block body reply of None
   * is a failed body request. `aggregate` stands for `aggregateEpochVotes`.
   */
  datatype Env = Env(
    isSynchronized: bool,
    assignments: Rpc<EpochAssignments>,
    headerBySlot: nat -> Rpc<HeaderReply>,
    blockByRoot: Bytes -> Option<SignedBeaconBlock>,
    validatorStats: Option<ValidatorStats>,
    killed: KillPoint -> bool,
    aggregate: (map<nat, CacheBlock>, EpochStats, Bytes) -> EpochVotes,
    beginOk: bool,
    persistOk: bool,
    syncStateOk: bool,
    commitOk: bool)

  /** The outcome of one epoch step and the cache state it leaves behind. */
  datatype StepResult = StepResult(
    done: bool, err: Option<SyncError>, cachedSlot: nat, cache: map<nat, CacheBlock>,
    requested: seq<nat>, committed: Option<Commit>)

  function FirstSlot(epoch: nat, spe: nat): nat { epoch * spe }

  /** The last slot of the epoch itself. */
  function LastOwnSlot(epoch: nat, spe: nat): nat
    requires spe > 0
  {
    epoch * spe + spe - 1
  }

  /** The last slot of the two-epoch fetch window (the epoch and the next one). */
  function LastWindowSlot(epoch: nat, spe: nat): nat
    requires spe > 0
  {
    epoch * spe + spe * 2 - 1
  }

  function Max(a: nat, b: nat): nat { if a < b then b else a }

  /** The slots lo, lo+1, ..., hi in increasing order. */
  function SlotRange(lo: nat, hi: nat): (r: seq<nat>)
    ensures |r| == if lo > hi then 0 else hi + 1 - lo
    ensures forall i :: 0 <= i < |r| ==> r[i] == lo + i
    decreases hi + 1 - lo
  {
    if lo > hi then [] else [lo] + SlotRange(lo + 1, hi)
  }

  // ----------------------------------------------------------------------
  // The fetch loop (indexer/synchronizer.go:156-182)
  // ----------------------------------------------------------------------

  datatype FetchExit = Completed | Killed | Failed(err: SyncError)

  /** What the fetch loop leaves: the cache, the slots whose header it requested, how it ended. */
  datatype FetchEnd = FetchEnd(cache: map<nat, CacheBlock>, requested: seq<nat>, exit: FetchExit)

  function Requesting(slot: nat, f: FetchEnd): FetchEnd
  {
    FetchEnd(f.cache, [slot] + f.requested, f.exit)
  }

  /** The fetch loop from `slot` to `last`: skip slots at or below the high-water mark. */
  function FetchFrom(
    slot: nat, last: nat, cachedSlot: nat, cache: map<nat, CacheBlock>, env: Env): (r: FetchEnd)
    ensures cache.Keys <= r.cache.Keys
    ensures r.exit != Completed ==> |r.requested| > 0
    decreases last + 1 - slot
  {
    if slot > last then FetchEnd(cache, [], Completed)
    else if cachedSlot >= slot then FetchFrom(slot + 1, last, cachedSlot, cache, env)
    else match env.headerBySlot(slot)
      case Err => FetchEnd(cache, [slot], Failed(HeaderError(slot)))
      case Nil => Requesting(slot, FetchFrom(slot + 1, last, cachedSlot, cache, env))
      case Ok(h) =>
        if env.killed(BeforeBlock(slot)) then FetchEnd(cache, [slot], Killed)
        else match env.blockByRoot(h.root)
          case None => FetchEnd(cache, [slot], Failed(BlockError(slot)))
          case Some(b) =>
            Requesting(slot, FetchFrom(slot + 1, last, cachedSlot,
                                       cache[slot := CacheBlock(h.root, slot, h.header, b)], env))
  }

  /** A slot the fetch loop gets through: no header error, and for a present header no kill and a body. */
  ghost predicate SlotFetchable(env: Env, slot: nat)
  {
    match env.headerBySlot(slot)
    case Err => false
    case Nil => true
    case Ok(h) => !env.killed(BeforeBlock(slot)) && env.blockByRoot(h.root).Some?
  }

  /** The cache entry the loop would insert for `slot`, from the header and body replies. */
  ghost predicate IsFetchedEntry(env: Env, slot: nat, b: CacheBlock)
  {
    && env.headerBySlot(slot).Ok?
    && b.slot == slot
    && b.root == env.headerBySlot(slot).value.root
    && b.header == env.headerBySlot(slot).value.header
    && env.blockByRoot(b.root) == Some(b.block)
  }

  /** Reference definition: the blocks of the present slots in [lo, hi] above the high-water mark. */
  ghost function ExpectedBlocks(env: Env, lo: nat, hi: nat, cachedSlot: nat): map<nat, CacheBlock>
  {
    map s | lo <= s <= hi && s > cachedSlot && env.headerBySlot(s).Ok?
                          && env.blockByRoot(env.headerBySlot(s).value.root).Some?
      :: CacheBlock(env.headerBySlot(s).value.root, s, env.headerBySlot(s).value.header,
                    env.blockByRoot(env.headerBySlot(s).value.root).value)
  }

  /** Every entry of `req` lies in [lo, hi], and the entries strictly increase. */
  ghost predicate IncreasingWithin(req: seq<nat>, lo: nat, hi: nat)
  {
    && (forall i :: 0 <= i < |req| ==> lo <= req[i] <= hi)
    && (forall i, j :: 0 <= i < j < |req| ==> req[i] < req[j])
  }

  /** Headers are requested only for slots in [slot, last] above the high-water mark, in increasing order. */
  lemma {:induction false} FetchRequestsWindow(
    slot: nat, last: nat, cachedSlot: nat, cache: map<nat, CacheBlock>, env: Env)
    ensures IncreasingWithin(FetchFrom(slot, last, cachedSlot, cache, env).requested,
                             Max(slot, cachedSlot + 1), last)
    decreases last + 1 - slot
  {
    if slot <= last {
      if cachedSlot >= slot {
        FetchRequestsWindow(slot + 1, last, cachedSlot, cache, env);
      } else if env.headerBySlot(slot).Nil? {
        FetchRequestsWindow(slot + 1, last, cachedSlot, cache, env);
        RequestingKeepsOrder(slot, last, FetchFrom(slot + 1, last, cachedSlot, cache, env));
      } else if env.headerBySlot(slot).Ok? {
        var h := env.headerBySlot(slot).value;
        if !env.killed(BeforeBlock(slot)) && env.blockByRoot(h.root).Some? {
          var b := env.blockByRoot(h.root).value;
          var cache' := cache[slot := CacheBlock(h.root, slot, h.header, b)];
          FetchRequestsWindow(slot + 1, last, cachedSlot, cache', env);
          RequestingKeepsOrder(slot, last, FetchFrom(slot + 1, last, cachedSlot, cache', env));
        }
      }
    }
  }

  /** Putting `slot` in front of increasing requests drawn from (slot, last] keeps them increasing. */
  lemma RequestingKeepsOrder(slot: nat, last: nat, f: FetchEnd)
    requires slot <= last
    requires IncreasingWithin(f.requested, slot + 1, last)
    ensures IncreasingWithin(Requesting(slot, f).requested, slot, last)
  {
    var r := Requesting(slot, f).requested;
    forall i, j | 0 <= i < j < |r| ensures r[i] < r[j] {
      assert r[j] == f.requested[j - 1];
      if i > 0 {
        assert r[i] == f.requested[i - 1];
      }
    }
  }

  /**
   * `updated` keeps every key of `cache`, and each of its entries is either
   * the old one or one fetched for a slot of [lo, hi] above the high-water mark.
   */
  ghost predicate EntriesFrom(
    cache: map<nat, CacheBlock>, updated: map<nat, CacheBlock>, lo: nat, hi: nat, cachedSlot: nat, env: Env)
  {
    && cache.Keys <= updated.Keys
    && (forall k :: k in updated ==>
          (k in cache && updated[k] == cache[k])
          || (lo <= k <= hi && k > cachedSlot && IsFetchedEntry(env, k, updated[k])))
  }

  /**
   * The loop never drops a key; each entry it leaves is either the old one or
   * one it inserted for a slot in [slot, last] above the high-water mark,
   * keyed by its own slot and carrying the header reply's root.
   */
  lemma {:induction false} FetchEntries(
    slot: nat, last: nat, cachedSlot: nat, cache: map<nat, CacheBlock>, env: Env)
    ensures EntriesFrom(cache, FetchFrom(slot, last, cachedSlot, cache, env).cache, slot, last, cachedSlot, env)
    decreases last + 1 - slot
  {
    if slot <= last {
      if cachedSlot >= slot {
        FetchEntries(slot + 1, last, cachedSlot, cache, env);
      } else if env.headerBySlot(slot).Nil? {
        FetchEntries(slot + 1, last, cachedSlot, cache, env);
      } else if env.headerBySlot(slot).Ok? {
        var h := env.headerBySlot(slot).value;
        if !env.killed(BeforeBlock(slot)) && env.blockByRoot(h.root).Some? {
          var b := env.blockByRoot(h.root).value;
          var cache' := cache[slot := CacheBlock(h.root, slot, h.header, b)];
          FetchEntries(slot + 1, last, cachedSlot, cache', env);
          assert IsFetchedEntry(env, slot, cache'[slot]);
        }
      }
    }
  }

  /** Every slot of [lo, hi] above the high-water mark is fetchable. */
  ghost predicate AllFetchable(env: Env, lo: nat, hi: nat, cachedSlot: nat)
  {
    forall s :: lo <= s <= hi && s > cachedSlot ==> SlotFetchable(env, s)
  }

  /** The loop runs to its end exactly when every slot it has to fetch is fetchable. */
  lemma {:induction false} FetchCompletesIff(
    slot: nat, last: nat, cachedSlot: nat, cache: map<nat, CacheBlock>, env: Env)
    ensures FetchFrom(slot, last, cachedSlot, cache, env).exit == Completed <==>
      AllFetchable(env, slot, last, cachedSlot)
    decreases last + 1 - slot
  {
    if slot <= last {
      if cachedSlot >= slot {
        FetchCompletesIff(slot + 1, last, cachedSlot, cache, env);
      } else if env.headerBySlot(slot).Nil? {
        FetchCompletesIff(slot + 1, last, cachedSlot, cache, env);
      } else if env.headerBySlot(slot).Ok? {
        var h := env.headerBySlot(slot).value;
        if !env.killed(BeforeBlock(slot)) && env.blockByRoot(h.root).Some? {
          var b := env.blockByRoot(h.root).value;
          FetchCompletesIff(slot + 1, last, cachedSlot,
                            cache[slot := CacheBlock(h.root, slot, h.header, b)], env);
        } else {
          assert !SlotFetchable(env, slot);
        }
      } else {
        assert !SlotFetchable(env, slot);
      }
    }
  }

  /**
   * A loop that runs to its end has requested every slot above the
   * high-water mark, in order, and added exactly the expected blocks: a
   * slot with an absent header adds nothing.
   */
  lemma FetchCompletedContents(
    slot: nat, last: nat, cachedSlot: nat, cache: map<nat, CacheBlock>, env: Env)
    requires FetchFrom(slot, last, cachedSlot, cache, env).exit == Completed
    ensures FetchFrom(slot, last, cachedSlot, cache, env).cache ==
      cache + ExpectedBlocks(env, slot, last, cachedSlot)
    ensures FetchFrom(slot, last, cachedSlot, cache, env).requested ==
      SlotRange(Max(slot, cachedSlot + 1), last)
  {
    FetchCompletedCache(slot, last, cachedSlot, cache, env);
    FetchCompletedRequests(slot, last, cachedSlot, cache, env);
  }

  /** A loop that runs to its end adds exactly the expected blocks to the cache. */
  lemma {:induction false} FetchCompletedCache(
    slot: nat, last: nat, cachedSlot: nat, cache: map<nat, CacheBlock>, env: Env)
    requires FetchFrom(slot, last, cachedSlot, cache, env).exit == Completed
    ensures FetchFrom(slot, last, cachedSlot, cache, env).cache ==
      cache + ExpectedBlocks(env, slot, last, cachedSlot)
    decreases last + 1 - slot
  {
    if slot > last {
      assert ExpectedBlocks(env, slot, last, cachedSlot) == map[];
      assert cache + map[] == cache;
    } else {
      ExpectedBlocksStep(env, slot, last, cachedSlot);
      if cachedSlot >= slot || env.headerBySlot(slot).Nil? {
        FetchCompletedCache(slot + 1, last, cachedSlot, cache, env);
      } else {
        var h := env.headerBySlot(slot).value;
        var entry := CacheBlock(h.root, slot, h.header, env.blockByRoot(h.root).value);
        FetchCompletedCache(slot + 1, last, cachedSlot, cache[slot := entry], env);
        UpdateThenUnion(cache, ExpectedBlocks(env, slot + 1, last, cachedSlot), slot, entry);
      }
    }
  }

  /** `ExpectedBlocks` from `slot` is the one from `slot + 1`, plus the entry for `slot` if it is present. */
  lemma ExpectedBlocksStep(env: Env, slot: nat, last: nat, cachedSlot: nat)
    requires slot <= last
    ensures slot !in ExpectedBlocks(env, slot + 1, last, cachedSlot)
    ensures var rest := ExpectedBlocks(env, slot + 1, last, cachedSlot);
      if slot > cachedSlot && env.headerBySlot(slot).Ok?
         && env.blockByRoot(env.headerBySlot(slot).value.root).Some?
      then
        var h := env.headerBySlot(slot).value;
        ExpectedBlocks(env, slot, last, cachedSlot) ==
          rest[slot := CacheBlock(h.root, slot, h.header, env.blockByRoot(h.root).value)]
      else ExpectedBlocks(env, slot, last, cachedSlot) == rest
  {
  }

  lemma UpdateThenUnion(cache: map<nat, CacheBlock>, rest: map<nat, CacheBlock>, k: nat, v: CacheBlock)
    requires k !in rest
    ensures cache[k := v] + rest == cache + rest[k := v]
  {
  }

  /** A loop that runs to its end has requested every slot above the high-water mark, in order. */
  lemma {:induction false} FetchCompletedRequests(
    slot: nat, last: nat, cachedSlot: nat, cache: map<nat, CacheBlock>, env: Env)
    requires FetchFrom(slot, last, cachedSlot, cache, env).exit == Completed
    ensures FetchFrom(slot, last, cachedSlot, cache, env).requested ==
      SlotRange(Max(slot, cachedSlot + 1), last)
    decreases last + 1 - slot
  {
    if slot > last {
    } else if cachedSlot >= slot {
      FetchCompletedRequests(slot + 1, last, cachedSlot, cache, env);
      assert Max(slot, cachedSlot + 1) == Max(slot + 1, cachedSlot + 1);
    } else if env.headerBySlot(slot).Nil? {
      FetchCompletedRequests(slot + 1, last, cachedSlot, cache, env);
      assert SlotRange(slot, last) == [slot] + SlotRange(slot + 1, last);
    } else {
      var h := env.headerBySlot(slot).value;
      var b := env.blockByRoot(h.root).value;
      FetchCompletedRequests(slot + 1, last, cachedSlot, cache[slot := CacheBlock(h.root, slot, h.header, b)], env);
      assert SlotRange(slot, last) == [slot] + SlotRange(slot + 1, last);
    }
  }

  /**
   * A loop that stops early stops at the last slot it requested, `s`, above
   * the high-water mark; the blocks it inserted before `s` stay: the cache is
   * the old one extended by the expected blocks of [lo, s - 1].
   */
  ghost predicate StoppedAt(
    requested: seq<nat>, updated: map<nat, CacheBlock>, cache: map<nat, CacheBlock>, env: Env,
    lo: nat, cachedSlot: nat)
  {
    && |requested| > 0
    && requested[|requested| - 1] > cachedSlot
    && updated == cache + ExpectedBlocks(env, lo, requested[|requested| - 1] - 1, cachedSlot)
  }

  /** A loop that is killed or fails keeps every block it inserted before the slot where it stopped. */
  lemma {:induction false} FetchStoppedCache(
    slot: nat, last: nat, cachedSlot: nat, cache: map<nat, CacheBlock>, env: Env)
    requires FetchFrom(slot, last, cachedSlot, cache, env).exit != Completed
    ensures StoppedAt(FetchFrom(slot, last, cachedSlot, cache, env).requested,
                      FetchFrom(slot, last, cachedSlot, cache, env).cache, cache, env, slot, cachedSlot)
    decreases last + 1 - slot
  {
    if slot <= last {
      if cachedSlot >= slot || env.headerBySlot(slot).Nil? {
        FetchStoppedCache(slot + 1, last, cachedSlot, cache, env);
        FetchStoppedSkip(slot, last, cachedSlot, cache, env);
      } else if !SlotFetchable(env, slot) {
        StoppedAtFirst(FetchFrom(slot, last, cachedSlot, cache, env), cache, env, slot, cachedSlot);
      } else {
        var h := env.headerBySlot(slot).value;
        var entry := CacheBlock(h.root, slot, h.header, env.blockByRoot(h.root).value);
        FetchStoppedCache(slot + 1, last, cachedSlot, cache[slot := entry], env);
        FetchStoppedInsert(slot, last, cachedSlot, cache, env, entry);
      }
    }
  }

  /** The step of `FetchStoppedCache` for a slot below the mark or with an absent header. */
  lemma FetchStoppedSkip(slot: nat, last: nat, cachedSlot: nat, cache: map<nat, CacheBlock>, env: Env)
    requires slot <= last && (cachedSlot >= slot || env.headerBySlot(slot).Nil?)
    requires FetchFrom(slot + 1, last, cachedSlot, cache, env).exit != Completed
    requires StoppedAt(FetchFrom(slot + 1, last, cachedSlot, cache, env).requested,
                       FetchFrom(slot + 1, last, cachedSlot, cache, env).cache, cache, env, slot + 1, cachedSlot)
    ensures StoppedAt(FetchFrom(slot, last, cachedSlot, cache, env).requested,
                      FetchFrom(slot, last, cachedSlot, cache, env).cache, cache, env, slot, cachedSlot)
  {
    FetchRequestsWindow(slot + 1, last, cachedSlot, cache, env);
    StoppedAfterSkip(FetchFrom(slot, last, cachedSlot, cache, env),
                     FetchFrom(slot + 1, last, cachedSlot, cache, env), cache, env, slot, cachedSlot);
  }

  /** The step of `FetchStoppedCache` for a slot whose block the loop inserts. */
  lemma FetchStoppedInsert(
    slot: nat, last: nat, cachedSlot: nat, cache: map<nat, CacheBlock>, env: Env, entry: CacheBlock)
    requires slot <= last && cachedSlot < slot && env.headerBySlot(slot).Ok? && SlotFetchable(env, slot)
    requires entry == CacheBlock(env.headerBySlot(slot).value.root, slot, env.headerBySlot(slot).value.header,
                                 env.blockByRoot(env.headerBySlot(slot).value.root).value)
    requires FetchFrom(slot + 1, last, cachedSlot, cache[slot := entry], env).exit != Completed
    requires StoppedAt(FetchFrom(slot + 1, last, cachedSlot, cache[slot := entry], env).requested,
                       FetchFrom(slot + 1, last, cachedSlot, cache[slot := entry], env).cache,
                       cache[slot := entry], env, slot + 1, cachedSlot)
    ensures StoppedAt(FetchFrom(slot, last, cachedSlot, cache, env).requested,
                      FetchFrom(slot, last, cachedSlot, cache, env).cache, cache, env, slot, cachedSlot)
  {
    FetchRequestsWindow(slot + 1, last, cachedSlot, cache[slot := entry], env);
    StoppedAfterInsert(FetchFrom(slot, last, cachedSlot, cache, env),
                       FetchFrom(slot + 1, last, cachedSlot, cache[slot := entry], env),
                       cache, env, slot, cachedSlot, entry);
  }

  /** Stopping at the first slot the scan looks at leaves the cache as it was. */
  lemma StoppedAtFirst(f: FetchEnd, cache: map<nat, CacheBlock>, env: Env, slot: nat, cachedSlot: nat)
    requires slot > cachedSlot && f.requested == [slot] && f.cache == cache
    ensures StoppedAt(f.requested, f.cache, cache, env, slot, cachedSlot)
  {
    assert ExpectedBlocks(env, slot, slot - 1, cachedSlot) == map[];
    assert cache + map[] == cache;
  }

  /** Skipping `slot`, which adds no block, keeps `StoppedAt` when the scan starts one slot earlier. */
  lemma StoppedAfterSkip(
    f: FetchEnd, rest: FetchEnd, cache: map<nat, CacheBlock>, env: Env, slot: nat, cachedSlot: nat)
    requires StoppedAt(rest.requested, rest.cache, cache, env, slot + 1, cachedSlot)
    requires rest.requested[|rest.requested| - 1] > slot
    requires f.cache == rest.cache && |f.requested| > 0
    requires f.requested[|f.requested| - 1] == rest.requested[|rest.requested| - 1]
    requires cachedSlot >= slot || env.headerBySlot(slot).Nil?
    ensures StoppedAt(f.requested, f.cache, cache, env, slot, cachedSlot)
  {
    var s := rest.requested[|rest.requested| - 1];
    ExpectedBlocksStep(env, slot, s - 1, cachedSlot);
  }

  /** Inserting the block of `slot` keeps `StoppedAt` when the scan starts one slot earlier. */
  lemma StoppedAfterInsert(
    f: FetchEnd, rest: FetchEnd, cache: map<nat, CacheBlock>, env: Env, slot: nat, cachedSlot: nat,
    entry: CacheBlock)
    requires slot > cachedSlot && env.headerBySlot(slot).Ok?
    requires env.blockByRoot(env.headerBySlot(slot).value.root).Some?
    requires entry == CacheBlock(env.headerBySlot(slot).value.root, slot, env.headerBySlot(slot).value.header,
                                 env.blockByRoot(env.headerBySlot(slot).value.root).value)
    requires StoppedAt(rest.requested, rest.cache, cache[slot := entry], env, slot + 1, cachedSlot)
    requires rest.requested[|rest.requested| - 1] > slot
    requires f.cache == rest.cache && |f.requested| > 0
    requires f.requested[|f.requested| - 1] == rest.requested[|rest.requested| - 1]
    ensures StoppedAt(f.requested, f.cache, cache, env, slot, cachedSlot)
  {
    InsertThenExpected(cache, env, slot, rest.requested[|rest.requested| - 1] - 1, cachedSlot, entry);
  }

  /** Inserting the block of `slot` and then the expected blocks after it gives the expected blocks from `slot`. */
  lemma InsertThenExpected(
    cache: map<nat, CacheBlock>, env: Env, slot: nat, hi: nat, cachedSlot: nat, entry: CacheBlock)
    requires cachedSlot < slot <= hi && env.headerBySlot(slot).Ok?
    requires env.blockByRoot(env.headerBySlot(slot).value.root).Some?
    requires entry == CacheBlock(env.headerBySlot(slot).value.root, slot, env.headerBySlot(slot).value.header,
                                 env.blockByRoot(env.headerBySlot(slot).value.root).value)
    ensures cache[slot := entry] + ExpectedBlocks(env, slot + 1, hi, cachedSlot)
         == cache + ExpectedBlocks(env, slot, hi, cachedSlot)
  {
    ExpectedBlocksStep(env, slot, hi, cachedSlot);
    UpdateThenUnion(cache, ExpectedBlocks(env, slot + 1, hi, cachedSlot), slot, entry);
  }

  // ----------------------------------------------------------------------
  // Target root and eviction (indexer/synchronizer.go:207-223, 249-254)
  // ----------------------------------------------------------------------

  /** The cached block of the lowest slot in [slot, last], if any. */
  function FirstCachedFrom(cache: map<nat, CacheBlock>, slot: nat, last: nat): (r: Option<CacheBlock>)
    ensures r.Some? ==> exists s :: slot <= s <= last && s in cache && r.value == cache[s]
    decreases last + 1 - slot
  {
    if slot > last then None
    else if slot in cache then Some(cache[slot])
    else FirstCachedFrom(cache, slot + 1, last)
  }

  /**
   * The epoch's target root: the first block's own root when it sits in the
   * epoch's first slot, otherwise its parent root; empty without a block.
   */
  function TargetRoot(firstBlock: Option<CacheBlock>, firstSlot: nat): (r: Bytes)
    ensures firstBlock.None? ==> r == []
    ensures firstBlock.Some? && firstBlock.value.header.message.slot == firstSlot ==> r == firstBlock.value.root
    ensures firstBlock.Some? && firstBlock.value.header.message.slot != firstSlot ==>
      r == firstBlock.value.header.message.parentRoot
  {
    match firstBlock
    case None => []
    case Some(b) =>
      if b.header.message.slot == firstSlot then b.root else b.header.message.parentRoot
  }

  /** FirstCachedFrom finds nothing exactly when the range holds no key, and otherwise the lowest one. */
  lemma {:induction false} FirstCachedIsLowest(cache: map<nat, CacheBlock>, slot: nat, last: nat)
    ensures var r := FirstCachedFrom(cache, slot, last);
      && (r.None? <==> forall t :: slot <= t <= last ==> t !in cache)
      && (r.Some? ==> exists s :: slot <= s <= last && s in cache && r.value == cache[s]
                                   && forall t :: slot <= t < s ==> t !in cache)
    decreases last + 1 - slot
  {
    if slot <= last && slot !in cache {
      FirstCachedIsLowest(cache, slot + 1, last);
      var r := FirstCachedFrom(cache, slot, last);
      if r.Some? {
        var s :| slot + 1 <= s <= last && s in cache && r.value == cache[s]
                 && forall t :: slot + 1 <= t < s ==> t !in cache;
        assert forall t :: slot <= t < s ==> t !in cache;
      }
    }
  }

  /** The target root is picked from the lowest cached slot `s` of [first, last]. */
  lemma {:induction false} TargetRootFromLowestBlock(
    cache: map<nat, CacheBlock>, first: nat, last: nat, s: nat)
    requires first <= s <= last && s in cache
    requires forall t :: first <= t < s ==> t !in cache
    ensures FirstCachedFrom(cache, first, last) == Some(cache[s])
    ensures TargetRoot(FirstCachedFrom(cache, first, last), first) ==
      if cache[s].header.message.slot == first then cache[s].root
      else cache[s].header.message.parentRoot
    decreases s - first
  {
    if first < s {
      TargetRootFromLowestBlock(cache, first + 1, last, s);
    }
  }

  /** The cache without the slots in [lo, hi). */
  function Evict(cache: map<nat, CacheBlock>, lo: nat, hi: nat): (r: map<nat, CacheBlock>)
    ensures forall k :: k in r <==> k in cache && !(lo <= k < hi)
    ensures forall k :: k in r ==> r[k] == cache[k]
  {
    map k | k in cache && !(lo <= k < hi) :: cache[k]
  }

  // ----------------------------------------------------------------------
  // The epoch step (indexer/synchronizer.go:137-257)
  // ----------------------------------------------------------------------

  /** The value `syncEpoch(epoch)` returns and the cache state it leaves, from the old state. */
  ghost function SyncEpochSpec(
    epoch: nat, spe: nat, cachedSlot: nat, cache: map<nat, CacheBlock>, env: Env): (r: StepResult)
    requires spe > 0
    ensures r.done ==> r.err.None?
    ensures r.committed.Some? ==> r.done && r.cachedSlot == LastWindowSlot(epoch, spe)
  {
    if env.isSynchronized then StepResult(true, None, cachedSlot, cache, [], None)
    else match env.assignments
      case Err => StepResult(false, Some(AssignmentsError), cachedSlot, cache, [], None)
      case Nil => StepResult(false, None, cachedSlot, cache, [], None)
      case Ok(a) =>
        if env.killed(AfterAssignments) then StepResult(false, None, cachedSlot, cache, [], None)
        else
          var first := FirstSlot(epoch, spe);
          var last := LastWindowSlot(epoch, spe);
          var f := FetchFrom(first, last, cachedSlot, cache, env);
          match f.exit
          case Killed => StepResult(false, None, cachedSlot, f.cache, f.requested, None)
          case Failed(e) => StepResult(false, Some(e), cachedSlot, f.cache, f.requested, None)
          case Completed =>
            if env.killed(AfterFetch) then StepResult(false, None, last, f.cache, f.requested, None)
            else if env.validatorStats.None? then
              StepResult(false, Some(StatsError), last, f.cache, f.requested, None)
            else if env.killed(AfterStats) then
              StepResult(false, None, last, f.cache, f.requested, None)
            else
              var stats := EpochStats(epoch, a.dependentRoot, a.proposerAssignments,
                                      a.attestorAssignments, a.syncAssignments,
                                      env.validatorStats.value);
              var target := TargetRoot(FirstCachedFrom(f.cache, first, LastOwnSlot(epoch, spe)), first);
              var votes := env.aggregate(f.cache, stats, target);
              if !env.beginOk then StepResult(false, Some(BeginError), last, f.cache, f.requested, None)
              else if !env.persistOk then
                StepResult(false, Some(PersistError), last, f.cache, f.requested, None)
              else if !env.syncStateOk then
                StepResult(false, Some(SyncStateError), last, f.cache, f.requested, None)
              else if !env.commitOk then
                StepResult(false, Some(CommitError), last, f.cache, f.requested, None)
              else
                StepResult(true, None, last, Evict(f.cache, first, first + spe), f.requested,
                           Some(Commit(epoch, f.cache, stats, votes, epoch)))
  }

  /** How far the step got before it returned: the fetch loop's result, when the loop ran. */
  ghost function StepFetch(epoch: nat, spe: nat, cachedSlot: nat, cache: map<nat, CacheBlock>, env: Env): FetchEnd
    requires spe > 0
  {
    FetchFrom(FirstSlot(epoch, spe), LastWindowSlot(epoch, spe), cachedSlot, cache, env)
  }

  ghost predicate ReachesFetch(env: Env)
  {
    !env.isSynchronized && env.assignments.Ok? && !env.killed(AfterAssignments)
  }

  /** An already synchronized epoch: "done", no request, no commit, the cache state untouched. */
  lemma SyncEpochSkipsSynchronized(
    epoch: nat, spe: nat, cachedSlot: nat, cache: map<nat, CacheBlock>, env: Env)
    requires spe > 0 && env.isSynchronized
    ensures SyncEpochSpec(epoch, spe, cachedSlot, cache, env) ==
      StepResult(true, None, cachedSlot, cache, [], None)
  {
  }

  /**
   * The step requests only slots of the two-epoch window above the high-water
   * mark, in increasing order; a step that returns "done" after running the
   * loop has requested every one of them.
   */
  lemma SyncEpochRequestsWindow(
    epoch: nat, spe: nat, cachedSlot: nat, cache: map<nat, CacheBlock>, env: Env)
    requires spe > 0
    ensures IncreasingWithin(SyncEpochSpec(epoch, spe, cachedSlot, cache, env).requested,
                             Max(FirstSlot(epoch, spe), cachedSlot + 1), LastWindowSlot(epoch, spe))
    ensures env.isSynchronized ==> SyncEpochSpec(epoch, spe, cachedSlot, cache, env).requested == []
    ensures var r := SyncEpochSpec(epoch, spe, cachedSlot, cache, env);
      r.done && !env.isSynchronized ==>
        r.requested == SlotRange(Max(FirstSlot(epoch, spe), cachedSlot + 1), LastWindowSlot(epoch, spe))
  {
    var first, last := FirstSlot(epoch, spe), LastWindowSlot(epoch, spe);
    FetchRequestsWindow(first, last, cachedSlot, cache, env);
    if ReachesFetch(env) && FetchFrom(first, last, cachedSlot, cache, env).exit == Completed {
      FetchCompletedContents(first, last, cachedSlot, cache, env);
    }
  }

  /**
   * The high-water mark moves only to the window's last slot, and only once
   * the fetch loop has run to its end; every earlier return leaves it alone.
   */
  lemma SyncEpochHighWaterMark(
    epoch: nat, spe: nat, cachedSlot: nat, cache: map<nat, CacheBlock>, env: Env)
    requires spe > 0
    ensures var r := SyncEpochSpec(epoch, spe, cachedSlot, cache, env);
      var ranLoop := ReachesFetch(env) && StepFetch(epoch, spe, cachedSlot, cache, env).exit == Completed;
      && (ranLoop ==> r.cachedSlot == LastWindowSlot(epoch, spe))
      && (!ranLoop ==> r.cachedSlot == cachedSlot)
      && (r.done && !env.isSynchronized ==> r.cachedSlot == LastWindowSlot(epoch, spe))
  {
  }

  /**
   * Every cache entry is either an old one, unchanged, or one fetched by this
   * step for a window slot above the high-water mark, keyed by its slot and
   * carrying the header reply's root. In particular slot 0 is never cached.
   */
  lemma SyncEpochCacheEntries(
    epoch: nat, spe: nat, cachedSlot: nat, cache: map<nat, CacheBlock>, env: Env)
    requires spe > 0
    ensures forall k :: k in SyncEpochSpec(epoch, spe, cachedSlot, cache, env).cache ==>
      var b := SyncEpochSpec(epoch, spe, cachedSlot, cache, env).cache[k];
      (k in cache && b == cache[k])
      || (FirstSlot(epoch, spe) <= k <= LastWindowSlot(epoch, spe) && k > cachedSlot
          && IsFetchedEntry(env, k, b))
    ensures 0 !in cache ==> 0 !in SyncEpochSpec(epoch, spe, cachedSlot, cache, env).cache
  {
    FetchEntries(FirstSlot(epoch, spe), LastWindowSlot(epoch, spe), cachedSlot, cache, env);
  }

  /**
   * Eviction happens only after a commit, and removes exactly the epoch's own
   * slots from the cache handed to persistence; the lookahead epoch's entries
   * stay. Without a commit no key leaves the cache.
   */
  lemma SyncEpochEvictsOwnEpochOnly(
    epoch: nat, spe: nat, cachedSlot: nat, cache: map<nat, CacheBlock>, env: Env)
    requires spe > 0
    ensures var r := SyncEpochSpec(epoch, spe, cachedSlot, cache, env);
      r.committed.None? ==> cache.Keys <= r.cache.Keys
    ensures var r := SyncEpochSpec(epoch, spe, cachedSlot, cache, env);
      r.committed.Some? ==>
        && cache.Keys <= r.committed.value.blocks.Keys
        && r.cache == Evict(r.committed.value.blocks, FirstSlot(epoch, spe), LastOwnSlot(epoch, spe) + 1)
    ensures var r := SyncEpochSpec(epoch, spe, cachedSlot, cache, env);
      r.committed.Some? ==>
        forall k :: k in r.committed.value.blocks && k > LastOwnSlot(epoch, spe) ==>
          k in r.cache && r.cache[k] == r.committed.value.blocks[k]
  {
    FetchEntries(FirstSlot(epoch, spe), LastWindowSlot(epoch, spe), cachedSlot, cache, env);
    CommitKeepsFetch(epoch, spe, cachedSlot, cache, env);
  }

  /** A commit hands persistence the fetch loop's cache and keeps that cache minus the epoch's own slots. */
  lemma CommitKeepsFetch(epoch: nat, spe: nat, cachedSlot: nat, cache: map<nat, CacheBlock>, env: Env)
    requires spe > 0
    ensures var r := SyncEpochSpec(epoch, spe, cachedSlot, cache, env);
      var f := StepFetch(epoch, spe, cachedSlot, cache, env);
      && (r.committed.None? ==> r.cache == cache || r.cache == f.cache)
      && (r.committed.Some? ==>
            && r.committed.value.blocks == f.cache
            && r.cache == Evict(f.cache, FirstSlot(epoch, spe), LastOwnSlot(epoch, spe) + 1))
  {
    var r := SyncEpochSpec(epoch, spe, cachedSlot, cache, env);
    var f := StepFetch(epoch, spe, cachedSlot, cache, env);
    if !ReachesFetch(env) {
      assert r.cache == cache;
    } else if f.exit != Completed {
      assert r.cache == f.cache;
    } else if r.committed.Some? {
      assert LastOwnSlot(epoch, spe) + 1 == FirstSlot(epoch, spe) + spe;
    }
  }

  /** The conditions under which the step commits: no kill, every reply usable, every database step ok. */
  ghost predicate StepSucceeds(epoch: nat, spe: nat, cachedSlot: nat, env: Env)
    requires spe > 0
  {
    && ReachesFetch(env)
    && AllFetchable(env, FirstSlot(epoch, spe), LastWindowSlot(epoch, spe), cachedSlot)
    && !env.killed(AfterFetch) && env.validatorStats.Some? && !env.killed(AfterStats)
    && env.beginOk && env.persistOk && env.syncStateOk && env.commitOk
  }

  /**
   * A transaction is committed exactly when nothing fails and no kill is
   * seen; "done" means skipped or committed, and never carries an error.
   */
  lemma SyncEpochCommitsIff(
    epoch: nat, spe: nat, cachedSlot: nat, cache: map<nat, CacheBlock>, env: Env)
    requires spe > 0
    ensures var r := SyncEpochSpec(epoch, spe, cachedSlot, cache, env);
      && (r.committed.Some? <==> StepSucceeds(epoch, spe, cachedSlot, env))
      && (r.done <==> env.isSynchronized || r.committed.Some?)
      && (r.done ==> r.err.None?)
  {
    FetchCompletesIff(FirstSlot(epoch, spe), LastWindowSlot(epoch, spe), cachedSlot, cache, env);
  }

  /**
   * A commit records the epoch, the sync cursor at this epoch, the cache
   * extended by exactly the fetched blocks, and votes aggregated with the
   * target root of the epoch's lowest cached block.
   */
  lemma SyncEpochCommitRecord(
    epoch: nat, spe: nat, cachedSlot: nat, cache: map<nat, CacheBlock>, env: Env)
    requires spe > 0
    requires SyncEpochSpec(epoch, spe, cachedSlot, cache, env).committed.Some?
    ensures var c := SyncEpochSpec(epoch, spe, cachedSlot, cache, env).committed.value;
      var first := FirstSlot(epoch, spe);
      && c.epoch == epoch && c.syncStateEpoch == epoch && c.stats.epoch == epoch
      && env.validatorStats == Some(c.stats.validatorStats)
      && c.blocks == cache + ExpectedBlocks(env, first, LastWindowSlot(epoch, spe), cachedSlot)
      && c.votes == env.aggregate(c.blocks, c.stats,
                                  TargetRoot(FirstCachedFrom(c.blocks, first, LastOwnSlot(epoch, spe)), first))
  {
    FetchCompletedContents(FirstSlot(epoch, spe), LastWindowSlot(epoch, spe), cachedSlot, cache, env);
  }

  /**
   * (false, nil) comes back exactly for a kill seen at a checkpoint the step
   * reached, or for a nil assignments reply without an error; it never
   * commits and the cache keeps every key it had.
   */
  lemma SyncEpochKilled(
    epoch: nat, spe: nat, cachedSlot: nat, cache: map<nat, CacheBlock>, env: Env)
    requires spe > 0
    ensures var r := SyncEpochSpec(epoch, spe, cachedSlot, cache, env);
      var first, last := FirstSlot(epoch, spe), LastWindowSlot(epoch, spe);
      (!r.done && r.err.None?) <==>
        !env.isSynchronized &&
        (env.assignments.Nil?
         || (env.assignments.Ok? &&
             (env.killed(AfterAssignments)
              || (exists s :: FirstUnfetchable(env, first, last, cachedSlot, s)
                              && env.headerBySlot(s).Ok? && env.killed(BeforeBlock(s)))
              || (AllFetchable(env, first, last, cachedSlot) &&
                  (env.killed(AfterFetch) || (env.validatorStats.Some? && env.killed(AfterStats)))))))
    ensures var r := SyncEpochSpec(epoch, spe, cachedSlot, cache, env);
      !r.done && r.err.None? ==> r.committed.None? && cache.Keys <= r.cache.Keys
  {
    FetchEntries(FirstSlot(epoch, spe), LastWindowSlot(epoch, spe), cachedSlot, cache, env);
    FetchKilledIff(FirstSlot(epoch, spe), LastWindowSlot(epoch, spe), cachedSlot, cache, env);
    FetchCompletesIff(FirstSlot(epoch, spe), LastWindowSlot(epoch, spe), cachedSlot, cache, env);
  }

  /** A fetch error names a requested window slot above the high-water mark that was not fetchable. */
  lemma {:induction false} FetchFailure(
    slot: nat, last: nat, cachedSlot: nat, cache: map<nat, CacheBlock>, env: Env)
    ensures FetchFrom(slot, last, cachedSlot, cache, env).exit.Failed? ==>
      FailedAt(env, FetchFrom(slot, last, cachedSlot, cache, env).exit.err, Max(slot, cachedSlot + 1), last)
    decreases last + 1 - slot
  {
    if slot <= last {
      if cachedSlot >= slot {
        FetchFailure(slot + 1, last, cachedSlot, cache, env);
      } else if env.headerBySlot(slot).Nil? {
        FetchFailure(slot + 1, last, cachedSlot, cache, env);
      } else if env.headerBySlot(slot).Ok? {
        var h := env.headerBySlot(slot).value;
        if !env.killed(BeforeBlock(slot)) && env.blockByRoot(h.root).Some? {
          var b := env.blockByRoot(h.root).value;
          FetchFailure(slot + 1, last, cachedSlot,
                       cache[slot := CacheBlock(h.root, slot, h.header, b)], env);
        }
      }
    }
  }

  /** `e` is a header error for a failed header request, or a body error for a failed body request, at a slot of [lo, hi]. */
  ghost predicate FailedAt(env: Env, e: SyncError, lo: nat, hi: nat)
  {
    match e
    case HeaderError(s) => lo <= s <= hi && env.headerBySlot(s).Err?
    case BlockError(s) =>
      && lo <= s <= hi && env.headerBySlot(s).Ok? && !env.killed(BeforeBlock(s))
      && env.blockByRoot(env.headerBySlot(s).value.root).None?
    case _ => false
  }

  /** How the loop ends at a slot it cannot get through; `Completed` for a slot it does get through. */
  ghost function StopExit(env: Env, s: nat): (r: FetchExit)
    ensures r == Completed <==> SlotFetchable(env, s)
  {
    match env.headerBySlot(s)
    case Err => Failed(HeaderError(s))
    case Nil => Completed
    case Ok(h) =>
      if env.killed(BeforeBlock(s)) then Killed
      else if env.blockByRoot(h.root).None? then Failed(BlockError(s))
      else Completed
  }

  /** `s` is the lowest slot of [lo, hi] above the high-water mark that is not fetchable. */
  ghost predicate FirstUnfetchable(env: Env, lo: nat, hi: nat, cachedSlot: nat, s: nat)
  {
    && Max(lo, cachedSlot + 1) <= s <= hi
    && AllFetchable(env, lo, s - 1, cachedSlot)
    && !SlotFetchable(env, s)
  }

  /** A loop result that, if it stopped early, stopped at the first unfetchable slot, as that slot's replies say. */
  ghost predicate StopsAtFirst(f: FetchEnd, env: Env, lo: nat, hi: nat, cachedSlot: nat)
  {
    f.exit != Completed ==>
      && |f.requested| > 0
      && FirstUnfetchable(env, lo, hi, cachedSlot, f.requested[|f.requested| - 1])
      && f.exit == StopExit(env, f.requested[|f.requested| - 1])
  }

  /**
   * A loop that stops early stops at the last slot it requested, which is
   * the first slot it cannot fetch, and ends as that slot's replies say: a
   * header error, a kill before the body request, or a body error.
   */
  lemma {:induction false} FetchStopsAtFirstUnfetchable(
    slot: nat, last: nat, cachedSlot: nat, cache: map<nat, CacheBlock>, env: Env)
    ensures StopsAtFirst(FetchFrom(slot, last, cachedSlot, cache, env), env, slot, last, cachedSlot)
    decreases last + 1 - slot
  {
    if slot <= last {
      var f := FetchFrom(slot, last, cachedSlot, cache, env);
      if cachedSlot >= slot || env.headerBySlot(slot).Nil? {
        FetchStopsAtFirstUnfetchable(slot + 1, last, cachedSlot, cache, env);
        StopsAfterFetchable(f, FetchFrom(slot + 1, last, cachedSlot, cache, env), env, slot, last, cachedSlot);
      } else if SlotFetchable(env, slot) {
        var h := env.headerBySlot(slot).value;
        var cache' := cache[slot := CacheBlock(h.root, slot, h.header, env.blockByRoot(h.root).value)];
        FetchStopsAtFirstUnfetchable(slot + 1, last, cachedSlot, cache', env);
        StopsAfterFetchable(f, FetchFrom(slot + 1, last, cachedSlot, cache', env), env, slot, last, cachedSlot);
      } else {
        StopsAtItsFirstSlot(f, env, slot, last, cachedSlot);
      }
    }
  }

  /** The step of `FetchStopsAtFirstUnfetchable` for a slot the loop gets through or skips. */
  lemma StopsAfterFetchable(f: FetchEnd, rest: FetchEnd, env: Env, slot: nat, last: nat, cachedSlot: nat)
    requires slot <= last && (cachedSlot >= slot || SlotFetchable(env, slot))
    requires f.exit == rest.exit
    requires f.requested == rest.requested || f.requested == [slot] + rest.requested
    requires StopsAtFirst(rest, env, slot + 1, last, cachedSlot)
    ensures StopsAtFirst(f, env, slot, last, cachedSlot)
  {
    if f.exit != Completed {
      assert f.requested[|f.requested| - 1] == rest.requested[|rest.requested| - 1];
    }
  }

  /** The step of `FetchStopsAtFirstUnfetchable` for a first slot the loop cannot get through. */
  lemma StopsAtItsFirstSlot(f: FetchEnd, env: Env, slot: nat, last: nat, cachedSlot: nat)
    requires cachedSlot < slot <= last && !SlotFetchable(env, slot)
    requires f.requested == [slot] && f.exit == StopExit(env, slot)
    ensures StopsAtFirst(f, env, slot, last, cachedSlot)
  {
  }

  /** At most one slot is the first unfetchable one. */
  lemma FirstUnfetchableUnique(env: Env, lo: nat, hi: nat, cachedSlot: nat, s: nat, t: nat)
    requires FirstUnfetchable(env, lo, hi, cachedSlot, s) && FirstUnfetchable(env, lo, hi, cachedSlot, t)
    ensures s == t
  {
  }

  /**
   * Conversely, when `s` is the first slot the loop cannot fetch, the loop
   * stops there with the exit that slot's replies give.
   */
  lemma FetchStopsAt(
    slot: nat, last: nat, cachedSlot: nat, cache: map<nat, CacheBlock>, env: Env, s: nat)
    requires FirstUnfetchable(env, slot, last, cachedSlot, s)
    ensures var f := FetchFrom(slot, last, cachedSlot, cache, env);
      && f.exit == StopExit(env, s) && f.exit != Completed
      && f.requested[|f.requested| - 1] == s
  {
    var f := FetchFrom(slot, last, cachedSlot, cache, env);
    FetchCompletesIff(slot, last, cachedSlot, cache, env);
    assert f.exit != Completed;
    FetchStopsAtFirstUnfetchable(slot, last, cachedSlot, cache, env);
    FirstUnfetchableUnique(env, slot, last, cachedSlot, s, f.requested[|f.requested| - 1]);
  }

  /** The loop is killed exactly when its first unfetchable slot has a header and a kill before the body request. */
  lemma FetchKilledIff(
    slot: nat, last: nat, cachedSlot: nat, cache: map<nat, CacheBlock>, env: Env)
    ensures FetchFrom(slot, last, cachedSlot, cache, env).exit == Killed <==>
      exists s :: FirstUnfetchable(env, slot, last, cachedSlot, s)
                  && env.headerBySlot(s).Ok? && env.killed(BeforeBlock(s))
  {
    var f := FetchFrom(slot, last, cachedSlot, cache, env);
    FetchStopsAtFirstUnfetchable(slot, last, cachedSlot, cache, env);
    if f.exit == Killed {
      var s := f.requested[|f.requested| - 1];
      assert FirstUnfetchable(env, slot, last, cachedSlot, s);
    }
    forall s | FirstUnfetchable(env, slot, last, cachedSlot, s)
      ensures f.exit == StopExit(env, s)
    {
      FetchStopsAt(slot, last, cachedSlot, cache, env, s);
    }
  }

  /**
   * Every error comes with (false, err) and no commit: an assignments error,
   * a header or body error at the window slot where the request failed
   * (with the high-water mark untouched), a missing validator-stats
   * snapshot, and the four database steps.
   */
  lemma SyncEpochFailures(
    epoch: nat, spe: nat, cachedSlot: nat, cache: map<nat, CacheBlock>, env: Env)
    requires spe > 0
    ensures var r := SyncEpochSpec(epoch, spe, cachedSlot, cache, env);
      r.err.Some? ==> !r.done && r.committed.None?
    ensures !env.isSynchronized && env.assignments.Err? ==>
      SyncEpochSpec(epoch, spe, cachedSlot, cache, env).err == Some(AssignmentsError)
    ensures var r := SyncEpochSpec(epoch, spe, cachedSlot, cache, env);
      r.err.Some? && (r.err.value.HeaderError? || r.err.value.BlockError?) ==>
        && FailedAt(env, r.err.value, Max(FirstSlot(epoch, spe), cachedSlot + 1), LastWindowSlot(epoch, spe))
        && r.cachedSlot == cachedSlot
    ensures forall s ::
      (ReachesFetch(env) && FirstUnfetchable(env, FirstSlot(epoch, spe), LastWindowSlot(epoch, spe), cachedSlot, s)) ==>
        var r := SyncEpochSpec(epoch, spe, cachedSlot, cache, env);
        && !r.done && r.cachedSlot == cachedSlot && r.requested[|r.requested| - 1] == s
        && (env.headerBySlot(s).Err? ==> r.err == Some(HeaderError(s)))
        && (env.headerBySlot(s).Ok? && !env.killed(BeforeBlock(s)) ==> r.err == Some(BlockError(s)))
    ensures var r := SyncEpochSpec(epoch, spe, cachedSlot, cache, env);
      (&& ReachesFetch(env) && AllFetchable(env, FirstSlot(epoch, spe), LastWindowSlot(epoch, spe), cachedSlot)
       && !env.killed(AfterFetch) && env.validatorStats.None?)
        ==> r.err == Some(StatsError)
  {
    var first, last := FirstSlot(epoch, spe), LastWindowSlot(epoch, spe);
    FetchFailure(first, last, cachedSlot, cache, env);
    FetchCompletesIff(first, last, cachedSlot, cache, env);
    forall s | ReachesFetch(env) && FirstUnfetchable(env, first, last, cachedSlot, s)
      ensures var r := SyncEpochSpec(epoch, spe, cachedSlot, cache, env);
        && !r.done && r.cachedSlot == cachedSlot && r.requested[|r.requested| - 1] == s
        && (env.headerBySlot(s).Err? ==> r.err == Some(HeaderError(s)))
        && (env.headerBySlot(s).Ok? && !env.killed(BeforeBlock(s)) ==> r.err == Some(BlockError(s)))
    {
      FetchStopsAt(first, last, cachedSlot, cache, env, s);
    }
  }

  /**
   * A step whose fetch loop is killed or fails keeps the blocks the loop
   * inserted before the slot where it stopped, and commits nothing.
   */
  lemma SyncEpochKeepsFetchedBlocks(
    epoch: nat, spe: nat, cachedSlot: nat, cache: map<nat, CacheBlock>, env: Env)
    requires spe > 0 && ReachesFetch(env)
    requires StepFetch(epoch, spe, cachedSlot, cache, env).exit != Completed
    ensures var r := SyncEpochSpec(epoch, spe, cachedSlot, cache, env);
      && !r.done && r.committed.None? && r.cachedSlot == cachedSlot
      && StoppedAt(r.requested, r.cache, cache, env, FirstSlot(epoch, spe), cachedSlot)
  {
    FetchStoppedCache(FirstSlot(epoch, spe), LastWindowSlot(epoch, spe), cachedSlot, cache, env);
  }

  /**
   * After epoch `e` is committed, the step for `e + 1` requests no slot of
   * the lookahead epoch it already holds: only slots of epoch `e + 2`.
   */
  lemma LookaheadIsNotRefetched(
    epoch: nat, spe: nat, cachedSlot: nat, cache: map<nat, CacheBlock>, env: Env, next: Env)
    requires spe > 0
    requires SyncEpochSpec(epoch, spe, cachedSlot, cache, env).committed.Some?
    ensures var r := SyncEpochSpec(epoch, spe, cachedSlot, cache, env);
      && r.cachedSlot + 1 == FirstSlot(epoch + 2, spe)
      && IncreasingWithin(SyncEpochSpec(epoch + 1, spe, r.cachedSlot, r.cache, next).requested,
                          FirstSlot(epoch + 2, spe), LastOwnSlot(epoch + 2, spe))
  {
    var r := SyncEpochSpec(epoch, spe, cachedSlot, cache, env);
    SyncEpochCommitsIff(epoch, spe, cachedSlot, cache, env);
    SyncEpochHighWaterMark(epoch, spe, cachedSlot, cache, env);
    SyncEpochRequestsWindow(epoch + 1, spe, r.cachedSlot, r.cache, next);
    assert FirstSlot(epoch + 2, spe) == epoch * spe + 2 * spe;
    assert LastWindowSlot(epoch + 1, spe) == LastOwnSlot(epoch + 2, spe);
    assert Max(FirstSlot(epoch + 1, spe), r.cachedSlot + 1) == FirstSlot(epoch + 2, spe);
  }

  /**
   * A worked case of a step that fails inside the fetch loop: with 4 slots
   * per epoch and the mark at 7, epoch 1 caches the block of slot 8, fails on
   * the header of slot 9 and leaves the mark at 7, so the retry requests
   * slot 8 again.
   */
  lemma FailedStepRefetches(env: Env, h: HeaderReply, b: SignedBeaconBlock)
    requires !env.isSynchronized && env.assignments.Ok? && forall k: KillPoint :: !env.killed(k)
    requires env.headerBySlot(8) == Ok(h) && env.blockByRoot(h.root) == Some(b) && env.headerBySlot(9).Err?
    ensures var r := SyncEpochSpec(1, 4, 7, map[], env);
      && r.err == Some(HeaderError(9)) && r.cachedSlot == 7 && r.cache == map[8 := CacheBlock(h.root, 8, h.header, b)]
      && SyncEpochSpec(1, 4, r.cachedSlot, r.cache, env).requested == [8, 9]
  {
  }

  /**
   * An epoch reported as already synchronized keeps the blocks the previous
   * step fetched for it: after committing `e` and skipping `e + 1`, the
   * cache still holds every block of epoch `e + 1`'s own slots.
   */
  lemma SkippedEpochKeepsItsBlocks(
    epoch: nat, spe: nat, cachedSlot: nat, cache: map<nat, CacheBlock>, env: Env, next: Env)
    requires spe > 0
    requires SyncEpochSpec(epoch, spe, cachedSlot, cache, env).committed.Some?
    requires next.isSynchronized
    ensures var r := SyncEpochSpec(epoch, spe, cachedSlot, cache, env);
      var r' := SyncEpochSpec(epoch + 1, spe, r.cachedSlot, r.cache, next);
      && r'.done
      && forall k :: k in r.committed.value.blocks && FirstSlot(epoch + 1, spe) <= k <= LastOwnSlot(epoch + 1, spe)
           ==> k in r'.cache
  {
    SyncEpochEvictsOwnEpochOnly(epoch, spe, cachedSlot, cache, env);
  }

  /**
   * A worked case: with 8 slots per epoch, after the reset at run start,
   * epoch 100 whose only block in the window sits at slot 803. All 16 slots
   * 800..815 are requested, only slot 803 is cached and committed, the
   * target root is that block's parent root (the epoch's first slot 800 is
   * empty), the cursor becomes 815 and the eviction leaves an empty cache.
   */
  lemma EpochWithOneBlock(env: Env, h: HeaderReply, b: SignedBeaconBlock)
    requires !env.isSynchronized && env.assignments.Ok? && env.validatorStats.Some?
    requires forall k: KillPoint :: !env.killed(k)
    requires env.beginOk && env.persistOk && env.syncStateOk && env.commitOk
    requires forall s :: 800 <= s <= 815 && s != 803 ==> env.headerBySlot(s).Nil?
    requires env.headerBySlot(803) == Ok(h) && h.header.message.slot == 803
    requires env.blockByRoot(h.root) == Some(b)
    ensures var r := SyncEpochSpec(100, 8, 0, map[], env);
      && r.done && r.err.None? && r.cachedSlot == 815 && r.cache == map[]
      && r.requested == SlotRange(800, 815) && |r.requested| == 16
      && r.committed.Some?
      && r.committed.value.blocks == map[803 := CacheBlock(h.root, 803, h.header, b)]
      && r.committed.value.votes ==
           env.aggregate(r.committed.value.blocks, r.committed.value.stats, h.header.message.parentRoot)
  {
    var entry := CacheBlock(h.root, 803, h.header, b);
    assert ExpectedBlocks(env, 800, 815, 0) == map[803 := entry];
    assert AllFetchable(env, 800, 815, 0);
    SyncEpochCommitsIff(100, 8, 0, map[], env);
    SyncEpochCommitRecord(100, 8, 0, map[], env);
    SyncEpochRequestsWindow(100, 8, 0, map[], env);
    var blocks := map[803 := entry];
    assert map[] + blocks == blocks;
    TargetRootFromLowestBlock(blocks, 800, 807, 803);
  }

  /** A fetch result with the requests `req` made before it. */
  function After(req: seq<nat>, f: FetchEnd): FetchEnd
  {
    FetchEnd(f.cache, req + f.requested, f.exit)
  }

  /** Requests made before a request for `slot` can be moved in front of it. */
  lemma AfterRequesting(req: seq<nat>, slot: nat, f: FetchEnd)
    ensures After(req, Requesting(slot, f)) == After(req + [slot], f)
  {
    assert req + ([slot] + f.requested) == (req + [slot]) + f.requested;
  }

  // ----------------------------------------------------------------------
  // The run loop (indexer/synchronizer.go:69-117)
  // ----------------------------------------------------------------------

  /** How one iteration of the run loop ends. */
  datatype RunExit = Continue | Complete | Aborted

  /** The inputs of one run-loop iteration: the step's oracles, the finalized epoch, a kill during cooldown. */
  datatype Iteration = Iteration(env: Env, finalizedEpoch: int, cooldownKilled: bool)

  /**
   * How an iteration ends, from whether its step was done and the cursor
   * after it: complete once a done step moved the cursor past the finalized
   * epoch (compared as int64), otherwise aborted by a kill during the
   * cooldown, otherwise on to the next iteration.
   */
  function IterationExit(done: bool, epoch: nat, it: Iteration): RunExit
    requires epoch < Uint64Modulus
  {
    if done && ToInt64(epoch) > it.finalizedEpoch then Complete
    else if it.cooldownKilled then Aborted
    else Continue
  }

  /** Every finalized epoch reported to the loop is an int64. */
  ghost predicate FinalizedInRange(its: seq<Iteration>)
  {
    forall i :: 0 <= i < |its| ==> -Int64Bound <= its[i].finalizedEpoch < Int64Bound
  }

  /** Where a run stops: how its last iteration ended, how many ran, the cursor and the cache state. */
  datatype RunEnd = RunEnd(
    exit: RunExit, count: nat, epoch: nat, cachedSlot: nat, cache: map<nat, CacheBlock>)

  /** `r` preceded by `n` iterations that each went on. */
  function Shift(n: nat, r: RunEnd): RunEnd
  {
    RunEnd(r.exit, r.count + n, r.epoch, r.cachedSlot, r.cache)
  }

  /**
   * The run loop over the iteration inputs `its`, from the cursor `epoch` and
   * the cache state: each iteration applies the epoch step, advances the
   * cursor on "done" (uint64 increment) and ends as `IterationExit` says;
   * the run stops at the first iteration that does not go on, or when the
   * inputs run out.
   */
  ghost function RunFrom(
    its: seq<Iteration>, spe: nat, epoch: nat, cachedSlot: nat, cache: map<nat, CacheBlock>): (r: RunEnd)
    requires spe > 0 && epoch < Uint64Modulus && FinalizedInRange(its)
    ensures r.epoch < Uint64Modulus && r.count <= |its|
    ensures r.exit == Continue ==> r.count == |its|
    ensures r.exit != Continue ==> r.count >= 1
    decreases |its|
  {
    if |its| == 0 then RunEnd(Continue, 0, epoch, cachedSlot, cache)
    else
      var s := SyncEpochSpec(epoch, spe, cachedSlot, cache, its[0].env);
      var next := if s.done then Inc64(epoch) else epoch;
      var exit := IterationExit(s.done, next, its[0]);
      if exit != Continue then RunEnd(exit, 1, next, s.cachedSlot, s.cache)
      else
        assert FinalizedInRange(its[1..]) by {
          forall i | 0 <= i < |its| - 1 ensures -Int64Bound <= its[1..][i].finalizedEpoch < Int64Bound {
            assert its[1..][i] == its[i + 1];
          }
        }
        Shift(1, RunFrom(its[1..], spe, next, s.cachedSlot, s.cache))
  }

  /** The first `k` inputs, which stay in the int64 range. */
  lemma PrefixInRange(its: seq<Iteration>, k: nat)
    requires FinalizedInRange(its) && k <= |its|
    ensures FinalizedInRange(its[..k])
  {
    forall i | 0 <= i < k ensures -Int64Bound <= its[..k][i].finalizedEpoch < Int64Bound {
      assert its[..k][i] == its[i];
    }
  }

  /**
   * A run that stops does so at iteration `count`, after `count - 1`
   * iterations that each went on, and the inputs after it play no part.
   */
  lemma {:induction false} RunStopsAtFirstExit(
    its: seq<Iteration>, spe: nat, epoch: nat, cachedSlot: nat, cache: map<nat, CacheBlock>)
    requires spe > 0 && epoch < Uint64Modulus && FinalizedInRange(its)
    ensures RunFrom(its, spe, epoch, cachedSlot, cache).exit != Continue ==>
      && FinalizedInRange(its[..RunFrom(its, spe, epoch, cachedSlot, cache).count - 1])
      && RunFrom(its[..RunFrom(its, spe, epoch, cachedSlot, cache).count - 1],
                 spe, epoch, cachedSlot, cache).exit == Continue
    ensures FinalizedInRange(its[..RunFrom(its, spe, epoch, cachedSlot, cache).count])
    ensures RunFrom(its[..RunFrom(its, spe, epoch, cachedSlot, cache).count], spe, epoch, cachedSlot, cache) ==
      RunFrom(its, spe, epoch, cachedSlot, cache)
    decreases |its|
  {
    var r := RunFrom(its, spe, epoch, cachedSlot, cache);
    if |its| == 0 {
      assert its[..0] == its;
    } else {
      var s := SyncEpochSpec(epoch, spe, cachedSlot, cache, its[0].env);
      var next := if s.done then Inc64(epoch) else epoch;
      if IterationExit(s.done, next, its[0]) != Continue {
        assert its[..1][0] == its[0];
      } else {
        var tail := its[1..];
        assert FinalizedInRange(tail) by {
          forall i | 0 <= i < |tail| ensures -Int64Bound <= tail[i].finalizedEpoch < Int64Bound {
            assert tail[i] == its[i + 1];
          }
        }
        var rest := RunFrom(tail, spe, next, s.cachedSlot, s.cache);
        RunStopsAtFirstExit(tail, spe, next, s.cachedSlot, s.cache);
        assert r == Shift(1, rest);
        var p := its[..r.count];
        assert p[0] == its[0] && p[1..] == tail[..rest.count];
        if r.exit != Continue {
          var q := its[..r.count - 1];
          assert q[0] == its[0] && q[1..] == tail[..rest.count - 1];
        }
      }
    }
    PrefixInRange(its, r.count);
    if r.exit != Continue {
      PrefixInRange(its, r.count - 1);
    }
  }

  /** Slot 0 never enters the cache during a run that starts without it. */
  lemma {:induction false} RunNeverCachesSlotZero(
    its: seq<Iteration>, spe: nat, epoch: nat, cachedSlot: nat, cache: map<nat, CacheBlock>)
    requires spe > 0 && epoch < Uint64Modulus && FinalizedInRange(its)
    requires 0 !in cache
    ensures 0 !in RunFrom(its, spe, epoch, cachedSlot, cache).cache
    decreases |its|
  {
    if |its| > 0 {
      var s := SyncEpochSpec(epoch, spe, cachedSlot, cache, its[0].env);
      SyncEpochCacheEntries(epoch, spe, cachedSlot, cache, its[0].env);
      var next := if s.done then Inc64(epoch) else epoch;
      if IterationExit(s.done, next, its[0]) == Continue {
        var tail := its[1..];
        assert FinalizedInRange(tail) by {
          forall i | 0 <= i < |tail| ensures -Int64Bound <= tail[i].finalizedEpoch < Int64Bound {
            assert tail[i] == its[i + 1];
          }
        }
        RunNeverCachesSlotZero(tail, spe, next, s.cachedSlot, s.cache);
      }
    }
  }

  /** A run whose first iteration goes on continues from the state that iteration left. */
  lemma RunUnfold(
    its: seq<Iteration>, k: nat, spe: nat, epoch: nat, cachedSlot: nat, cache: map<nat, CacheBlock>)
    requires spe > 0 && epoch < Uint64Modulus && FinalizedInRange(its) && k < |its|
    ensures FinalizedInRange(its[k..]) && FinalizedInRange(its[k + 1..])
    ensures var s := SyncEpochSpec(epoch, spe, cachedSlot, cache, its[k].env);
      var next := if s.done then Inc64(epoch) else epoch;
      RunFrom(its[k..], spe, epoch, cachedSlot, cache) ==
        if IterationExit(s.done, next, its[k]) != Continue then RunEnd(IterationExit(s.done, next, its[k]), 1, next, s.cachedSlot, s.cache)
        else Shift(1, RunFrom(its[k + 1..], spe, next, s.cachedSlot, s.cache))
  {
    var tail := its[k..];
    forall i | 0 <= i < |tail| ensures -Int64Bound <= tail[i].finalizedEpoch < Int64Bound {
      assert tail[i] == its[k + i];
    }
    var rest := its[k + 1..];
    forall i | 0 <= i < |rest| ensures -Int64Bound <= rest[i].finalizedEpoch < Int64Bound {
      assert rest[i] == its[k + 1 + i];
    }
    assert tail[0] == its[k] && tail[1..] == its[k + 1..];
  }

  // ----------------------------------------------------------------------
  // The synchronizer state and its operations
  // ----------------------------------------------------------------------

  class Synchronizer {
    var running: bool
    var currentEpoch: nat
    var cachedSlot: nat
    var cachedBlocks: map<nat, CacheBlock>
    const slotsPerEpoch: nat

    /** The chain config's slots per epoch is positive; the cursor is a uint64. */
    ghost predicate Valid()
      reads this
    {
      slotsPerEpoch > 0 && currentEpoch < Uint64Modulus
    }

    /** newSynchronizer (synchronizer.go:28-33): every field at its zero value. */
    constructor (spe: nat)
      requires spe > 0
      ensures Valid() && slotsPerEpoch == spe
      ensures !running && currentEpoch == 0 && cachedSlot == 0 && cachedBlocks == map[]
    {
      slotsPerEpoch := spe;
      running := false;
      currentEpoch := 0;
      cachedSlot := 0;
      cachedBlocks := map[];
    }

    /** True iff a worker is running and its cursor is still below `epoch`. */
    function IsEpochAhead(epoch: nat): (r: bool)
      reads this
      ensures r <==> running && currentEpoch < epoch
    {
      if running then
        if currentEpoch < epoch then true else false
      else false
    }

    /**
     * The part of startSync after the previous worker has stopped: refuse if
     * the flag is still set, otherwise set the cursor and mark the worker
     * running. `started` says whether a worker is spawned.
     */
    method StartSync(startEpoch: nat) returns (started: bool)
      requires Valid() && startEpoch < Uint64Modulus
      modifies this`running, this`currentEpoch
      ensures Valid()
      ensures started <==> !old(running)
      ensures running
      ensures currentEpoch == if started then startEpoch else old(currentEpoch)
      ensures started ==> forall e: nat :: IsEpochAhead(e) <==> startEpoch < e
    {
      if running {
        return false;
      }
      currentEpoch := startEpoch;
      running := true;
      started := true;
    }

    /** The reset at the start of runSync: an empty cache and a zero high-water mark. */
    method BeginRun()
      requires Valid()
      modifies this`cachedBlocks, this`cachedSlot
      ensures Valid()
      ensures cachedBlocks == map[] && cachedSlot == 0
      ensures forall e: nat :: IsEpochAhead(e) == old(IsEpochAhead(e))
    {
      cachedBlocks := map[];
      cachedSlot := 0;
    }

    /** The fetch loop of syncEpoch over [firstSlot, lastSlot], inserting into the cache as it goes. */
    method FetchWindow(firstSlot: nat, lastSlot: nat, env: Env)
      returns (exit: FetchExit, ghost requested: seq<nat>)
      modifies this`cachedBlocks
      ensures var f := FetchFrom(firstSlot, lastSlot, cachedSlot, old(cachedBlocks), env);
        exit == f.exit && requested == f.requested && cachedBlocks == f.cache
    {
      ghost var whole := FetchFrom(firstSlot, lastSlot, cachedSlot, cachedBlocks, env);
      requested := [];
      var slot := firstSlot;
      while slot <= lastSlot
        invariant firstSlot <= slot <= Max(firstSlot, lastSlot + 1)
        invariant whole == After(requested, FetchFrom(slot, lastSlot, cachedSlot, cachedBlocks, env))
        decreases lastSlot + 1 - slot
      {
        ghost var rest := FetchFrom(slot, lastSlot, cachedSlot, cachedBlocks, env);
        if cachedSlot < slot {
          var headerRsp := env.headerBySlot(slot);
          if headerRsp.Err? {
            return Failed(HeaderError(slot)), requested + [slot];
          }
          if headerRsp.Ok? {
            if env.killed(BeforeBlock(slot)) {
              return Killed, requested + [slot];
            }
            var blockRsp := env.blockByRoot(headerRsp.value.root);
            if blockRsp.None? {
              return Failed(BlockError(slot)), requested + [slot];
            }
            cachedBlocks := cachedBlocks[slot := CacheBlock(headerRsp.value.root, slot,
                                                            headerRsp.value.header, blockRsp.value)];
          }
          AfterRequesting(requested, slot, FetchFrom(slot + 1, lastSlot, cachedSlot, cachedBlocks, env));
          requested := requested + [slot];
        }
        slot := slot + 1;
      }
      assert requested + [] == requested;
      exit := Completed;
    }

    /** The loop of syncEpoch that looks for the cached block of the lowest slot in [firstSlot, lastSlot]. */
    method FindFirstBlock(firstSlot: nat, lastSlot: nat) returns (firstBlock: Option<CacheBlock>)
      ensures firstBlock == FirstCachedFrom(cachedBlocks, firstSlot, lastSlot)
      ensures firstBlock.None? <==> forall t :: firstSlot <= t <= lastSlot ==> t !in cachedBlocks
      ensures firstBlock.Some? ==>
        exists s :: firstSlot <= s <= lastSlot && s in cachedBlocks && firstBlock.value == cachedBlocks[s]
                    && forall t :: firstSlot <= t < s ==> t !in cachedBlocks
    {
      firstBlock := None;
      var slot := firstSlot;
      while slot <= lastSlot
        invariant firstSlot <= slot <= Max(firstSlot, lastSlot + 1)
        invariant FirstCachedFrom(cachedBlocks, firstSlot, lastSlot) ==
                  FirstCachedFrom(cachedBlocks, slot, lastSlot)
        decreases lastSlot + 1 - slot
      {
        if slot in cachedBlocks {
          firstBlock := Some(cachedBlocks[slot]);
          break;
        }
        slot := slot + 1;
      }
      FirstCachedIsLowest(cachedBlocks, firstSlot, lastSlot);
    }

    /** The cleanup loop of syncEpoch: delete the cache entries of [firstSlot, lastSlot]. */
    method EvictEpoch(firstSlot: nat, lastSlot: nat)
      modifies this`cachedBlocks
      ensures cachedBlocks == Evict(old(cachedBlocks), firstSlot, lastSlot + 1)
    {
      var slot := firstSlot;
      while slot <= lastSlot
        invariant firstSlot <= slot <= Max(firstSlot, lastSlot + 1)
        invariant cachedBlocks == Evict(old(cachedBlocks), firstSlot, slot)
        decreases lastSlot + 1 - slot
      {
        if slot in cachedBlocks {
          cachedBlocks := cachedBlocks - {slot};
        }
        slot := slot + 1;
      }
    }

    /**
     * syncEpoch: skip a synchronized epoch, load the assignments, fetch the
     * two-epoch window above the high-water mark, load the validator stats,
     * pick the target root, persist and commit, then evict the epoch's own
     * slots. `requested` lists the slots whose header was requested.
     */
    method SyncEpoch(syncEpoch: nat, env: Env)
      returns (done: bool, err: Option<SyncError>, committed: Option<Commit>, ghost requested: seq<nat>)
      requires Valid()
      modifies this`cachedSlot, this`cachedBlocks
      ensures var s := SyncEpochSpec(syncEpoch, slotsPerEpoch, old(cachedSlot), old(cachedBlocks), env);
        && done == s.done && err == s.err && committed == s.committed && requested == s.requested
        && cachedSlot == s.cachedSlot && cachedBlocks == s.cache
    {
      requested := [];
      if env.isSynchronized {
        return true, None, None, requested;
      }
      if env.assignments.Err? {
        return false, Some(AssignmentsError), None, requested;
      }
      if env.assignments.Nil? {
        return false, None, None, requested;
      }
      var epochAssignments := env.assignments.value;
      if env.killed(AfterAssignments) {
        return false, None, None, requested;
      }

      var firstSlot := FirstSlot(syncEpoch, slotsPerEpoch);
      var lastSlot := LastWindowSlot(syncEpoch, slotsPerEpoch);
      var exit;
      exit, requested := FetchWindow(firstSlot, lastSlot, env);
      match exit {
        case Killed => return false, None, None, requested;
        case Failed(e) => return false, Some(e), None, requested;
        case Completed =>
      }
      cachedSlot := lastSlot;

      if env.killed(AfterFetch) {
        return false, None, None, requested;
      }
      if env.validatorStats.None? {
        return false, Some(StatsError), None, requested;
      }
      var epochStats := EpochStats(syncEpoch, epochAssignments.dependentRoot,
                                   epochAssignments.proposerAssignments,
                                   epochAssignments.attestorAssignments,
                                   epochAssignments.syncAssignments, env.validatorStats.value);
      if env.killed(AfterStats) {
        return false, None, None, requested;
      }

      lastSlot := LastOwnSlot(syncEpoch, slotsPerEpoch);
      var firstBlock := FindFirstBlock(firstSlot, lastSlot);
      var targetRoot: Bytes := [];
      if firstBlock.Some? {
        if firstBlock.value.header.message.slot == firstSlot {
          targetRoot := firstBlock.value.root;
        } else {
          targetRoot := firstBlock.value.header.message.parentRoot;
        }
      }
      var epochVotes := env.aggregate(cachedBlocks, epochStats, targetRoot);

      if !env.beginOk {
        return false, Some(BeginError), None, requested;
      }
      if !env.persistOk {
        return false, Some(PersistError), None, requested;
      }
      if !env.syncStateOk {
        return false, Some(SyncStateError), None, requested;
      }
      if !env.commitOk {
        return false, Some(CommitError), None, requested;
      }
      committed := Some(Commit(syncEpoch, cachedBlocks, epochStats, epochVotes, syncEpoch));
      EvictEpoch(firstSlot, lastSlot);
      done, err := true, None;
    }

    /**
     * One iteration of runSync's loop: run the step for the cursor; on "done"
     * advance the cursor (uint64 increment) and finish when it passes the
     * finalized epoch (compared as int64); otherwise keep the cursor and
     * retry the same epoch. Unless finished, a kill during the cooldown
     * aborts. The worker is marked stopped when the loop ends.
     */
    method RunIteration(it: Iteration) returns (exit: RunExit, ghost step: StepResult)
      requires Valid() && running
      requires -Int64Bound <= it.finalizedEpoch < Int64Bound
      modifies this
      ensures Valid()
      ensures step == SyncEpochSpec(old(currentEpoch), slotsPerEpoch, old(cachedSlot), old(cachedBlocks), it.env)
      ensures cachedSlot == step.cachedSlot && cachedBlocks == step.cache
      ensures currentEpoch == if step.done then Inc64(old(currentEpoch)) else old(currentEpoch)
      ensures exit == IterationExit(step.done, currentEpoch, it)
      ensures running <==> exit == Continue
    {
      var syncEpoch := currentEpoch;
      var done, err, committed, requested := SyncEpoch(syncEpoch, it.env);
      step := StepResult(done, err, cachedSlot, cachedBlocks, requested, committed);
      if done {
        syncEpoch := Inc64(syncEpoch);
        currentEpoch := syncEpoch;
        if ToInt64(syncEpoch) > it.finalizedEpoch {
          running := false;
          return Complete, step;
        }
      }
      if it.cooldownKilled {
        running := false;
        return Aborted, step;
      }
      exit := Continue;
    }

    /**
     * runSync, run against a finite list of iteration inputs: reset the cache
     * and the high-water mark, then iterate until the run completes, is
     * aborted, or the inputs run out (the worker is then still running). The
     * run ends as `RunFrom` says, from the cursor it started with.
     */
    method RunSync(iterations: seq<Iteration>) returns (exit: RunExit, count: nat)
      requires Valid() && running
      requires FinalizedInRange(iterations)
      modifies this
      ensures Valid()
      ensures RunEnd(exit, count, currentEpoch, cachedSlot, cachedBlocks) ==
        RunFrom(iterations, slotsPerEpoch, old(currentEpoch), 0, map[])
      ensures running <==> exit == Continue
    {
      BeginRun();
      ghost var whole := RunFrom(iterations, slotsPerEpoch, currentEpoch, cachedSlot, cachedBlocks);
      exit := Continue;
      count := 0;
      assert iterations[0..] == iterations;
      while count < |iterations| && exit == Continue
        invariant Valid()
        invariant count <= |iterations|
        invariant running <==> exit == Continue
        invariant FinalizedInRange(iterations[count..])
        invariant exit == Continue ==>
          whole == Shift(count, RunFrom(iterations[count..], slotsPerEpoch, currentEpoch, cachedSlot, cachedBlocks))
        invariant exit != Continue ==> whole == RunEnd(exit, count, currentEpoch, cachedSlot, cachedBlocks)
        decreases |iterations| - count
      {
        RunUnfold(iterations, count, slotsPerEpoch, currentEpoch, cachedSlot, cachedBlocks);
        assert iterations[count..][0] == iterations[count];
        ghost var step;
        exit, step := RunIteration(iterations[count]);
        count := count + 1;
      }
      if exit == Continue {
        assert iterations[count..] == [];
      }
    }
  }
}
