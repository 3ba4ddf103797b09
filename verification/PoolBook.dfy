/** The pool book: an incremental cache of pool states, updated from decoded chain logs, with
    snapshot-based undo of removed V2 Sync logs. */
module PoolBook {
  import opened Common
  import opened Market
  import V2 = V2Pool
  import V3 = V3Pool

  datatype PoolState = V2Pool(v2: V2.V2PoolState) | V3Pool(v3: V3.V3PoolState)

  datatype DecodedKind = V2Sync | V3Swap | OtherKind

  datatype DecodedEvent = DecodedEvent(
    kind: DecodedKind,
    reserve0: Option<Amount>,
    reserve1: Option<Amount>,
    sqrtPriceX96: Option<U256>,
    liquidity: Option<Amount>,
    tick: Option<int>)

  datatype Log = Log(
    address: Option<Address>,
    decoded: Option<DecodedEvent>,
    blockContext: BlockContext,
    txHash: Option<string>,
    logIndex: Option<U64>,
    removed: bool)

  datatype LogKey = LogKey(txHash: string, logIndex: U64)

  datatype MarketEventOutcome = Applied | Ignored | Reverted

  datatype BookState = BookState(pools: map<Address, PoolState>, history: map<LogKey, V2.V2SyncSnapshot>)

  function BlockNumber(context: BlockContext): Option<U64> {
    match context
    case Pending => None
    case Block(number) => Some(number)
  }

  function AppliedLogKey(log: Log): Result<LogKey, MarketError> {
    if log.txHash.Some? && log.logIndex.Some? then Ok(LogKey(log.txHash.value, log.logIndex.value))
    else Err(MissingLogIdentity)
  }

  /** A V2 pool and the outcome after a log that is not a removal. */
  function V2ApplyLog(pool: V2.V2PoolState, log: Log): Result<(V2.V2PoolState, MarketEventOutcome), MarketError> {
    if log.address != Some(pool.address) || log.decoded.None? || log.decoded.value.kind != V2Sync
    then Ok((pool, Ignored))
    else
      var decoded := log.decoded.value;
      if decoded.reserve0.None? || decoded.reserve1.None? then Err(MissingDecodedField) else
      var synced :- V2.ApplySync(pool, decoded.reserve0.value, decoded.reserve1.value, BlockNumber(log.blockContext));
      Ok((synced, Applied))
  }

  predicate IsSwapOf(pool: V3.V3PoolState, log: Log) {
    log.address == Some(pool.address) && log.decoded.Some? && log.decoded.value.kind == V3Swap
  }

  predicate CompleteSwap(swap: DecodedEvent) {
    && swap.sqrtPriceX96.Some? && V3.InPriceRange(swap.sqrtPriceX96.value)
    && swap.liquidity.Some? && swap.tick.Some?
  }

  /** A V3 pool adopts the price, liquidity and tick a Swap log publishes; `removed` is not looked at. */
  function V3ApplyLog(pool: V3.V3PoolState, log: Log): (r: Result<(V3.V3PoolState, MarketEventOutcome), MarketError>)
    ensures r.Ok? && V3.InRange(pool) ==> V3.InRange(r.value.0)
    ensures r.Err? <==> IsSwapOf(pool, log) && !CompleteSwap(log.decoded.value)
    ensures r.Ok? && r.value.1 == Applied <==> IsSwapOf(pool, log) && CompleteSwap(log.decoded.value)
    ensures r.Ok? && r.value.1 != Applied ==> r.value == (pool, Ignored)
    ensures r.Ok? && r.value.1 == Applied ==>
              && log.decoded.Some?
              && var swap, after := log.decoded.value, r.value.0;
              && swap.sqrtPriceX96 == Some(after.sqrtPriceX96) && swap.liquidity == Some(after.liquidity)
              && swap.tick == Some(after.tick) && after.lastUpdatedBlock == BlockNumber(log.blockContext)
              && after.address == pool.address && after.token0 == pool.token0 && after.token1 == pool.token1
              && after.feePips == pool.feePips && after.tickSpacing == pool.tickSpacing
  {
    if !IsSwapOf(pool, log)
    then Ok((pool, Ignored))
    else
      var decoded := log.decoded.value;
      if decoded.sqrtPriceX96.None? || decoded.liquidity.None? || decoded.tick.None? then Err(MissingDecodedField)
      else if !V3.InPriceRange(decoded.sqrtPriceX96.value) then Err(InvalidPool)
      else Ok((pool.(sqrtPriceX96 := decoded.sqrtPriceX96.value, liquidity := decoded.liquidity.value,
                     tick := decoded.tick.value, lastUpdatedBlock := BlockNumber(log.blockContext)), Applied))
  }

  /** A V2 pool, the undo history and the outcome after a log; the history changes only on success. */
  function ApplyV2Log(pool: V2.V2PoolState, history: map<LogKey, V2.V2SyncSnapshot>, log: Log)
      : Result<(V2.V2PoolState, map<LogKey, V2.V2SyncSnapshot>, MarketEventOutcome), MarketError>
  {
    if log.decoded.None? || log.decoded.value.kind != V2Sync then Ok((pool, history, Ignored)) else
    var key :- AppliedLogKey(log);
    if log.removed then
      if key !in history then Err(MissingRevertSnapshot(key.txHash, key.logIndex))
      else Ok((V2.Restore(pool, history[key]), history - {key}, Reverted))
    else
      var (after, outcome) :- V2ApplyLog(pool, log);
      Ok((after, if outcome == Applied then history[key := V2.Snapshot(pool)] else history, outcome))
  }

  /** The book after a log. A failing log loses its pool: it is taken out and not put back. */
  function AfterLog(book: BookState, log: Log): (BookState, Result<MarketEventOutcome, MarketError>) {
    if log.address.None? || log.address.value !in book.pools then (book, Ok(Ignored)) else
    var key := log.address.value;
    match book.pools[key]
    case V2Pool(pool) =>
      (match ApplyV2Log(pool, book.history, log)
       case Ok((after, history, outcome)) => (BookState(book.pools[key := V2Pool(after)], history), Ok(outcome))
       case Err(e) => (book.(pools := book.pools - {key}), Err(e)))
    case V3Pool(pool) =>
      (match V3ApplyLog(pool, log)
       case Ok((after, outcome)) => (book.(pools := book.pools[key := V3Pool(after)]), Ok(outcome))
       case Err(e) => (book.(pools := book.pools - {key}), Err(e)))
  }

  class PoolBook {
    var pools: map<Address, PoolState>
    var appliedSyncHistory: map<LogKey, V2.V2SyncSnapshot>

    ghost function State(): BookState
      reads this
    {
      BookState(pools, appliedSyncHistory)
    }

    constructor ()
      ensures State() == BookState(map[], map[])
    {
      pools, appliedSyncHistory := map[], map[];
    }

    method InsertV2Pool(pool: V2.V2PoolState)
      modifies this
      ensures pools == old(pools)[pool.address := V2Pool(pool)]
      ensures appliedSyncHistory == old(appliedSyncHistory)
    {
      pools := pools[pool.address := V2Pool(pool)];
    }

    method InsertV3Pool(pool: V3.V3PoolState)
      modifies this
      ensures pools == old(pools)[pool.address := V3Pool(pool)]
      ensures appliedSyncHistory == old(appliedSyncHistory)
    {
      pools := pools[pool.address := V3Pool(pool)];
    }

    method ApplyLog(log: Log) returns (r: Result<MarketEventOutcome, MarketError>)
      modifies this
      ensures (State(), r) == AfterLog(old(State()), log)
    {
      if log.address.None? || log.address.value !in pools {
        return Ok(Ignored);
      }
      var key := log.address.value;
      var state := pools[key];
      pools := pools - {key};
      match state {
        case V2Pool(pool) =>
          var after;
          after, r := ApplyV2LogInPlace(pool, log);
          if r.Ok? { pools := pools[key := V2Pool(after)]; }
        case V3Pool(pool) =>
          var applied := V3ApplyLog(pool, log);
          if applied.Err? {
            return Err(applied.error);
          }
          pools := pools[key := V3Pool(applied.value.0)];
          r := Ok(applied.value.1);
      }
      assert r.Ok? ==> old(pools)[key := pools[key]] == pools;
    }

    method ApplyV2LogInPlace(pool: V2.V2PoolState, log: Log)
        returns (after: V2.V2PoolState, r: Result<MarketEventOutcome, MarketError>)
      modifies this`appliedSyncHistory
      ensures match ApplyV2Log(pool, old(appliedSyncHistory), log)
              case Ok((p, history, outcome)) => after == p && appliedSyncHistory == history && r == Ok(outcome)
              case Err(e) => appliedSyncHistory == old(appliedSyncHistory) && r == Err(e)
    {
      after := pool;
      if log.decoded.None? || log.decoded.value.kind != V2Sync {
        return pool, Ok(Ignored);
      }
      var identified := AppliedLogKey(log);
      if identified.Err? {
        return pool, Err(identified.error);
      }
      var key := identified.value;
      if log.removed {
        if key !in appliedSyncHistory {
          return pool, Err(MissingRevertSnapshot(key.txHash, key.logIndex));
        }
        var previous := appliedSyncHistory[key];
        appliedSyncHistory := appliedSyncHistory - {key};
        return V2.Restore(pool, previous), Ok(Reverted);
      }
      var snapshot := V2.Snapshot(pool);
      var applied := V2ApplyLog(pool, log);
      if applied.Err? {
        return pool, Err(applied.error);
      }
      after := applied.value.0;
      if applied.value.1 == Applied {
        appliedSyncHistory := appliedSyncHistory[key := snapshot];
      }
      r := Ok(applied.value.1);
    }
  }
}
