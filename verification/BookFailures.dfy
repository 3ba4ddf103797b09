/** Logs the book cannot follow: which ones fail and lose their pool, and removals of V3 Swaps. */
module BookFailures {
  import opened Common
  import opened PoolBook
  import V2 = V2Pool
  import V3 = V3Pool

  predicate MissingReserve(reserve: Option<Amount>) {
    reserve.None? || reserve.value == 0
  }

  /** A Sync without identity, a removal of a Sync that is not in the history, or a Sync without two
      positive reserves. */
  predicate BadSync(pool: V2.V2PoolState, history: map<LogKey, V2.V2SyncSnapshot>, log: Log) {
    && log.decoded.Some? && log.decoded.value.kind == V2Sync
    && (|| log.txHash.None? || log.logIndex.None?
        || (log.removed && LogKey(log.txHash.value, log.logIndex.value) !in history)
        || (!log.removed && log.address == Some(pool.address)
            && (MissingReserve(log.decoded.value.reserve0) || MissingReserve(log.decoded.value.reserve1))))
  }

  /** A Swap without price, liquidity or tick, or with a price outside the protocol range. */
  predicate BadSwap(pool: V3.V3PoolState, log: Log) {
    IsSwapOf(pool, log) && !CompleteSwap(log.decoded.value)
  }

  predicate Malformed(book: BookState, log: Log) {
    && log.address.Some? && log.address.value in book.pools
    && match book.pools[log.address.value]
       case V2Pool(pool) => BadSync(pool, book.history, log)
       case V3Pool(pool) => BadSwap(pool, log)
  }

  /** A log fails exactly when it is malformed for its pool. A failure takes that pool out of the book
      and changes nothing else; a success keeps every pool in the book and touches only its own. */
  lemma LogFailsExactly(book: BookState, log: Log)
    ensures
      var (after, outcome) := AfterLog(book, log);
      && (outcome.Err? <==> Malformed(book, log))
      && (outcome.Err? ==> after == book.(pools := book.pools - {log.address.value}))
      && (outcome.Ok? ==> after.pools.Keys == book.pools.Keys)
      && (forall address | address in book.pools && Some(address) != log.address ::
            address in after.pools && after.pools[address] == book.pools[address])
  {
    if log.address.Some? && log.address.value in book.pools {
      match book.pools[log.address.value]
      case V2Pool(pool) => assert ApplyV2Log(pool, book.history, log).Err? <==> BadSync(pool, book.history, log);
      case V3Pool(pool) => assert V3ApplyLog(pool, log).Err? <==> BadSwap(pool, log);
    }
  }

  /** A Sync with a zero reserve takes a bootstrapped pool out of the book for good. */
  lemma ZeroReserveLosesPool(pool: V2.V2PoolState, log: Log)
    requires pool == V2.V2PoolState("pool", "a", "b", 10, 10, 30, None)
    requires log == Log(Some("pool"), Some(DecodedEvent(V2Sync, Some(0), Some(5), None, None, None)),
                        Pending, Some("tx"), Some(1), false)
    ensures AfterLog(BookState(map["pool" := V2Pool(pool)], map[]), log).0.pools == map[]
  {
    LogFailsExactly(BookState(map["pool" := V2Pool(pool)], map[]), log);
  }

  // ----- Removed Swaps -----

  /** A well-formed Swap of a V3 pool of the book. */
  predicate SwapOf(book: BookState, log: Log) {
    && log.address.Some? && log.address.value in book.pools && book.pools[log.address.value].V3Pool?
    && book.pools[log.address.value].v3.address == log.address.value
    && log.decoded.Some? && log.decoded.value.kind == V3Swap && !Malformed(book, log)
  }

  /** The Swap publishes what the pool already holds. */
  predicate ChangesNothing(pool: V3.V3PoolState, log: Log)
    requires log.decoded.Some?
  {
    && log.decoded.value.sqrtPriceX96 == Some(pool.sqrtPriceX96) && log.decoded.value.liquidity == Some(pool.liquidity)
    && log.decoded.value.tick == Some(pool.tick) && BlockNumber(log.blockContext) == pool.lastUpdatedBlock
  }

  /** The removal of a Swap is applied as the Swap itself: it succeeds, repeats its effect, and gives
      the book back if and only if the Swap had changed nothing. */
  lemma RemovedSwapRestoresExactly(book: BookState, log: Log)
    requires SwapOf(book, log)
    ensures
      var swapped := AfterLog(book, log).0;
      var undone := AfterLog(swapped, log.(removed := true));
      && undone == (swapped, Ok(Applied))
      && (undone.0 == book <==> ChangesNothing(book.pools[log.address.value].v3, log))
  {
    var address := log.address.value;
    var pool, swapped := book.pools[address].v3, AfterLog(book, log).0;
    var adopted := V3ApplyLog(pool, log).value.0;
    assert swapped.pools == book.pools[address := V3Pool(adopted)];
    assert V3ApplyLog(adopted, log.(removed := true)) == Ok((adopted, Applied));
    assert swapped.pools[address := V3Pool(adopted)] == swapped.pools;
    if adopted == pool {
      assert book.pools[address := V3Pool(pool)] == book.pools;
    } else {
      assert swapped.pools[address] != book.pools[address];
    }
  }

  /** A Swap that moves the price from one to four, and its removal, leave the price at four. */
  lemma RemovedSwapStays(pool: V3.V3PoolState, log: Log)
    requires pool == V3.V3PoolState("pool", "a", "b", 3000, 60, TWO_96, 1, 0, None)
    requires log == Log(Some("pool"), Some(DecodedEvent(V3Swap, None, None, Some(2 * TWO_96), Some(1), Some(13863))),
                        Pending, Some("tx"), Some(1), false)
    ensures
      var book := BookState(map["pool" := V3Pool(pool)], map[]);
      var undone := AfterLog(AfterLog(book, log).0, log.(removed := true)).0;
      "pool" in undone.pools && undone.pools["pool"] == V3Pool(pool.(sqrtPriceX96 := 2 * TWO_96, tick := 13863))
  {
    RemovedSwapRestoresExactly(BookState(map["pool" := V3Pool(pool)], map[]), log);
  }
}
