/** The pool book against a replay of the surviving logs: what each V2 pool holds after any
    interleaving of Sync logs and removals. */
module Replay {
  import opened Common
  import opened PoolBook
  import V2 = V2Pool
  import V3 = V3Pool

  /** A Sync that has been applied and not removed. */
  datatype LiveSync = LiveSync(key: LogKey, synced: V2.V2SyncSnapshot)

  /** The surviving Syncs of every V2 pool, oldest first. */
  type Survivors = map<Address, seq<LiveSync>>

  /** Sync logs of V2 pools, the only ones that change a V2 pool. */
  predicate IsV2Sync(live: Survivors, log: Log) {
    log.address.Some? && log.address.value in live && log.decoded.Some? && log.decoded.value.kind == V2Sync
  }

  predicate IsV3Swap(boot: BookState, log: Log) {
    && log.address.Some? && log.address.value in boot.pools && boot.pools[log.address.value].V3Pool?
    && log.decoded.Some? && log.decoded.value.kind == V3Swap
  }

  function Without(stack: seq<LiveSync>, key: LogKey): seq<LiveSync> {
    if stack == [] then []
    else (if stack[0].key == key then [] else [stack[0]]) + Without(stack[1..], key)
  }

  /** Replaying a log: a Sync survives until a removal names its key. */
  function ReplayLog(live: Survivors, log: Log): Survivors {
    if !IsV2Sync(live, log) || AppliedLogKey(log).Err? then live else
    var address, key, decoded := log.address.value, AppliedLogKey(log).value, log.decoded.value;
    if log.removed then live[address := Without(live[address], key)]
    else if decoded.reserve0.None? || decoded.reserve1.None? then live
    else
      var synced := V2.V2SyncSnapshot(decoded.reserve0.value, decoded.reserve1.value, BlockNumber(log.blockContext));
      live[address := live[address] + [LiveSync(key, synced)]]
  }

  function ReplayAll(live: Survivors, logs: seq<Log>): Survivors {
    if logs == [] then live else ReplayLog(ReplayAll(live, logs[..|logs| - 1]), logs[|logs| - 1])
  }

  /** The bootstrap pool overwritten by the last surviving Sync. */
  function Overwritten(boot: V2.V2PoolState, stack: seq<LiveSync>): V2.V2PoolState {
    if stack == [] then boot else V2.Restore(boot, stack[|stack| - 1].synced)
  }

  /** Survivors at bootstrap: none, for each V2 pool. */
  function NoSurvivors(boot: BookState): Survivors {
    map address | address in boot.pools && boot.pools[address].V2Pool? :: []
  }

  ghost predicate IsLive(live: Survivors, key: LogKey) {
    exists address, i :: address in live && 0 <= i < |live[address]| && live[address][i].key == key
  }

  /** What the chain feed promises of a log: a Sync is complete, has positive reserves and a key that
      is not live; a removal names its pool's newest live Sync; a V3 Swap is complete and in range. */
  ghost predicate Expected(boot: BookState, live: Survivors, log: Log) {
    && (IsV2Sync(live, log) ==>
          && AppliedLogKey(log).Ok?
          && var address, key, decoded := log.address.value, AppliedLogKey(log).value, log.decoded.value;
          if log.removed
          then live[address] != [] && live[address][|live[address]| - 1].key == key
          else
            && decoded.reserve0.Some? && decoded.reserve0.value > 0
            && decoded.reserve1.Some? && decoded.reserve1.value > 0
            && !IsLive(live, key))
    && (IsV3Swap(boot, log) ==>
          && log.decoded.value.liquidity.Some? && log.decoded.value.tick.Some?
          && log.decoded.value.sqrtPriceX96.Some? && V3.InPriceRange(log.decoded.value.sqrtPriceX96.value))
  }

  ghost predicate ExpectedRun(boot: BookState, logs: seq<Log>) {
    forall n :: 0 <= n < |logs| ==> Expected(boot, ReplayAll(NoSurvivors(boot), logs[..n]), logs[n])
  }

  /** A freshly loaded book: validated pools stored under their own address, and no history. */
  ghost predicate Bootstrapped(boot: BookState) {
    && boot.history == map[]
    && forall address :: address in boot.pools ==>
         match boot.pools[address]
         case V2Pool(pool) => pool.address == address && V2.Valid(pool)
         case V3Pool(pool) => pool.address == address && V3.InRange(pool)
  }

  /** Each V2 pool is its bootstrap state overwritten by its last surviving Sync; V3 pools stay in
      range. */
  ghost predicate PoolsReplayed(boot: BookState, live: Survivors, pools: map<Address, PoolState>) {
    && pools.Keys == boot.pools.Keys
    && (forall address :: address in live ==> address in boot.pools)
    && forall address :: address in boot.pools ==>
         match boot.pools[address]
         case V2Pool(pool) =>
           address in live && pools[address] == V2Pool(Overwritten(pool, live[address]))
         case V3Pool(pool) =>
           address !in live && pools[address].V3Pool? && V3.InRange(pools[address].v3)
           && pools[address].v3.address == address
  }

  /** The `i`-th live Sync of a V2 pool is in the history, with the state below it. */
  ghost predicate SavedBelow(boot: BookState, live: Survivors, history: map<LogKey, V2.V2SyncSnapshot>, address: Address, i: nat)
    requires address in live && i < |live[address]|
  {
    && address in boot.pools && boot.pools[address].V2Pool?
    && live[address][i].key in history
    && history[live[address][i].key] == V2.Snapshot(Overwritten(boot.pools[address].v2, live[address][..i]))
  }

  /** The history holds exactly the live keys, each with the state below it. */
  ghost predicate HistoryReplayed(boot: BookState, live: Survivors, history: map<LogKey, V2.V2SyncSnapshot>) {
    && (forall key :: key in history <==> IsLive(live, key))
    && (forall address, i: nat | address in live && i < |live[address]| :: SavedBelow(boot, live, history, address, i))
  }

  /** Live keys are distinct across pools and positions, and live reserves positive. */
  ghost predicate StacksSound(live: Survivors) {
    && (forall a, i, b, j | a in live && b in live && 0 <= i < |live[a]| && 0 <= j < |live[b]| ::
          live[a][i].key == live[b][j].key ==> a == b && i == j)
    && (forall a, i :: a in live && 0 <= i < |live[a]| ==>
          live[a][i].synced.reserve0 > 0 && live[a][i].synced.reserve1 > 0)
  }

  ghost predicate Replayed(boot: BookState, live: Survivors, book: BookState) {
    && PoolsReplayed(boot, live, book.pools)
    && HistoryReplayed(boot, live, book.history)
    && StacksSound(live)
  }

  function ApplyAll(boot: BookState, logs: seq<Log>): BookState {
    if logs == [] then boot else AfterLog(ApplyAll(boot, logs[..|logs| - 1]), logs[|logs| - 1]).0
  }

  /** The book refines replay: over every expected run no log fails, every pool equals its replayed
      state, the history is exactly the live keys, and V2 reserves stay positive. */
  lemma {:induction false} BookRefinesReplay(boot: BookState, logs: seq<Log>)
    requires Bootstrapped(boot) && ExpectedRun(boot, logs)
    ensures
      var live, book := ReplayAll(NoSurvivors(boot), logs), ApplyAll(boot, logs);
      && Replayed(boot, live, book)
      && (forall address :: address in book.pools && book.pools[address].V2Pool? ==> V2.Valid(book.pools[address].v2))
      && (logs != [] ==> AfterLog(ApplyAll(boot, logs[..|logs| - 1]), logs[|logs| - 1]).1.Ok?)
    decreases |logs|
  {
    if logs != [] {
      var last := |logs| - 1;
      forall n | 0 <= n < last
        ensures Expected(boot, ReplayAll(NoSurvivors(boot), logs[..last][..n]), logs[..last][n])
      {
        assert logs[..last][..n] == logs[..n];
      }
      BookRefinesReplay(boot, logs[..last]);
      StepRefines(boot, ReplayAll(NoSurvivors(boot), logs[..last]), ApplyAll(boot, logs[..last]), logs[last]);
    }
    ReplayedValid(boot, ReplayAll(NoSurvivors(boot), logs), ApplyAll(boot, logs));
  }

  lemma ReplayedValid(boot: BookState, live: Survivors, book: BookState)
    requires Bootstrapped(boot) && Replayed(boot, live, book)
    ensures forall address :: address in book.pools && book.pools[address].V2Pool? ==> V2.Valid(book.pools[address].v2)
  {}

  lemma StepRefines(boot: BookState, live: Survivors, book: BookState, log: Log)
    requires Bootstrapped(boot) && Replayed(boot, live, book) && Expected(boot, live, log)
    ensures Replayed(boot, ReplayLog(live, log), AfterLog(book, log).0)
    ensures AfterLog(book, log).1.Ok?
  {
    if IsV2Sync(live, log) {
      if log.removed {
        RemovalRefines(boot, live, book, log);
      } else {
        SyncRefines(boot, live, book, log);
      }
    } else {
      OtherLogRefines(boot, live, book, log);
    }
  }

  /** Logs that are not V2 Syncs leave every V2 pool and the history alone. */
  lemma OtherLogRefines(boot: BookState, live: Survivors, book: BookState, log: Log)
    requires Replayed(boot, live, book) && Expected(boot, live, log) && !IsV2Sync(live, log)
    ensures Replayed(boot, live, AfterLog(book, log).0)
    ensures AfterLog(book, log).1.Ok?
  {
    if log.address.Some? && log.address.value in book.pools {
      var address := log.address.value;
      assert address in boot.pools;
      match boot.pools[address] {
        case V2Pool(pool) =>
          assert book.pools[address := book.pools[address]] == book.pools;
          assert AfterLog(book, log) == (book, Ok(Ignored));
        case V3Pool(pool) =>
          V3LogRefines(boot, live, book, log, address);
      }
    }
  }

  lemma V3LogRefines(boot: BookState, live: Survivors, book: BookState, log: Log, address: Address)
    requires PoolsReplayed(boot, live, book.pools) && Expected(boot, live, log)
    requires log.address == Some(address) && address in boot.pools && boot.pools[address].V3Pool?
    ensures PoolsReplayed(boot, live, AfterLog(book, log).0.pools)
    ensures AfterLog(book, log).0.history == book.history && AfterLog(book, log).1.Ok?
  {
    var applied := V3ApplyLog(book.pools[address].v3, log);
    V3PoolsReplayed(boot, live, book.pools, address, applied.value.0);
  }

  lemma V3PoolsReplayed(boot: BookState, live: Survivors, pools: map<Address, PoolState>, address: Address, pool: V3.V3PoolState)
    requires PoolsReplayed(boot, live, pools) && address in boot.pools && boot.pools[address].V3Pool?
    requires pool.address == address && V3.InRange(pool)
    ensures PoolsReplayed(boot, live, pools[address := V3Pool(pool)])
  {}

  lemma SyncRefines(boot: BookState, live: Survivors, book: BookState, log: Log)
    requires Bootstrapped(boot) && Replayed(boot, live, book) && Expected(boot, live, log)
    requires IsV2Sync(live, log) && !log.removed
    ensures Replayed(boot, ReplayLog(live, log), AfterLog(book, log).0)
    ensures AfterLog(book, log).1.Ok?
  {
    var address, key, decoded := log.address.value, AppliedLogKey(log).value, log.decoded.value;
    assert address in boot.pools && boot.pools[address].V2Pool?;
    var pool := Overwritten(boot.pools[address].v2, live[address]);
    var sync := LiveSync(key, V2.V2SyncSnapshot(decoded.reserve0.value, decoded.reserve1.value, BlockNumber(log.blockContext)));
    assert ReplayLog(live, log) == live[address := live[address] + [sync]];
    assert AfterLog(book, log) == (
      BookState(book.pools[address := V2Pool(V2.Restore(pool, sync.synced))], book.history[key := V2.Snapshot(pool)]),
      Ok(Applied));
    PushPools(boot, live, book.pools, address, sync);
    PushHistory(boot, live, book.history, address, sync);
    PushStacks(live, address, sync);
  }

  lemma PushPools(boot: BookState, live: Survivors, pools: map<Address, PoolState>, address: Address, sync: LiveSync)
    requires PoolsReplayed(boot, live, pools) && address in live && boot.pools[address].V2Pool?
    ensures
      var pool := Overwritten(boot.pools[address].v2, live[address]);
      PoolsReplayed(boot, live[address := live[address] + [sync]],
                    pools[address := V2Pool(V2.Restore(pool, sync.synced))])
  {}

  lemma PushHistory(boot: BookState, live: Survivors, history: map<LogKey, V2.V2SyncSnapshot>, address: Address, sync: LiveSync)
    requires HistoryReplayed(boot, live, history) && address in live && address in boot.pools && boot.pools[address].V2Pool?
    requires !IsLive(live, sync.key)
    ensures
      var pool := Overwritten(boot.pools[address].v2, live[address]);
      HistoryReplayed(boot, live[address := live[address] + [sync]], history[sync.key := V2.Snapshot(pool)])
  {
    var stack := live[address];
    var after := live[address := stack + [sync]];
    var saved := history[sync.key := V2.Snapshot(Overwritten(boot.pools[address].v2, stack))];
    forall a, i: nat | a in after && i < |after[a]|
      ensures SavedBelow(boot, after, saved, a, i)
    {
      assert after[address][..|stack|] == stack;
      if i < |live[a]| {
        assert SavedBelow(boot, live, history, a, i);
        assert IsLive(live, live[a][i].key);
        assert after[a][i] == live[a][i] && after[a][..i] == live[a][..i];
      }
    }
    forall k
      ensures IsLive(after, k) <==> k == sync.key || IsLive(live, k)
    {
      if k == sync.key { assert after[address][|stack|].key == k; }
      if IsLive(live, k) {
        var a, i :| a in live && 0 <= i < |live[a]| && live[a][i].key == k;
        assert after[a][i].key == k;
      }
    }
  }

  lemma PushStacks(live: Survivors, address: Address, sync: LiveSync)
    requires StacksSound(live) && address in live && !IsLive(live, sync.key)
    requires sync.synced.reserve0 > 0 && sync.synced.reserve1 > 0
    ensures StacksSound(live[address := live[address] + [sync]])
  {}

  lemma {:induction false} WithoutLast(stack: seq<LiveSync>, key: LogKey)
    requires stack != [] && stack[|stack| - 1].key == key
    requires forall i :: 0 <= i < |stack| - 1 ==> stack[i].key != key
    ensures Without(stack, key) == stack[..|stack| - 1]
  {
    if |stack| > 1 {
      WithoutLast(stack[1..], key);
      assert stack[..|stack| - 1] == [stack[0]] + stack[1..][..|stack| - 2];
    }
  }

  lemma RemovalRefines(boot: BookState, live: Survivors, book: BookState, log: Log)
    requires Bootstrapped(boot) && Replayed(boot, live, book) && Expected(boot, live, log)
    requires IsV2Sync(live, log) && log.removed
    ensures Replayed(boot, ReplayLog(live, log), AfterLog(book, log).0)
    ensures AfterLog(book, log).1.Ok?
  {
    var address, key := log.address.value, AppliedLogKey(log).value;
    var stack := live[address];
    var below := stack[..|stack| - 1];
    assert address in boot.pools && boot.pools[address].V2Pool?;
    assert SavedBelow(boot, live, book.history, address, |stack| - 1);
    WithoutLast(stack, key);
    assert ReplayLog(live, log) == live[address := below];
    assert AfterLog(book, log) == (
      BookState(book.pools[address := V2Pool(Overwritten(boot.pools[address].v2, below))], book.history - {key}),
      Ok(Reverted));
    RemovalPops(boot, live, book, address, live[address := below], book.history - {key});
  }

  lemma RemovalPops(boot: BookState, live: Survivors, book: BookState, address: Address,
                    after: Survivors, rest: map<LogKey, V2.V2SyncSnapshot>)
    requires Replayed(boot, live, book)
    requires address in live && live[address] != [] && boot.pools[address].V2Pool?
    requires after == live[address := live[address][..|live[address]| - 1]]
    requires rest == book.history - {live[address][|live[address]| - 1].key}
    ensures Replayed(boot, after,
              BookState(book.pools[address := V2Pool(Overwritten(boot.pools[address].v2, after[address]))], rest))
  {
    PopPools(boot, live, book.pools, address);
    PopHistory(boot, live, book.history, address, after, rest);
    PopStacks(live, address);
  }

  lemma PopPools(boot: BookState, live: Survivors, pools: map<Address, PoolState>, address: Address)
    requires PoolsReplayed(boot, live, pools) && address in live && boot.pools[address].V2Pool? && live[address] != []
    ensures
      var below := live[address][..|live[address]| - 1];
      PoolsReplayed(boot, live[address := below], pools[address := V2Pool(Overwritten(boot.pools[address].v2, below))])
  {}

  lemma PopLive(live: Survivors, address: Address, k: LogKey)
    requires StacksSound(live) && address in live && live[address] != []
    ensures
      var stack := live[address];
      IsLive(live[address := stack[..|stack| - 1]], k) <==> k != stack[|stack| - 1].key && IsLive(live, k)
  {
    var stack := live[address];
    var after: Survivors := live[address := stack[..|stack| - 1]];
    if k != stack[|stack| - 1].key && IsLive(live, k) {
      var a, i :| a in live && 0 <= i < |live[a]| && live[a][i].key == k;
      assert after[a][i].key == k;
    }
    if IsLive(after, k) {
      var a, i :| a in after && 0 <= i < |after[a]| && after[a][i].key == k;
      assert live[a][i].key == k;
    }
  }

  lemma PopHistory(boot: BookState, live: Survivors, history: map<LogKey, V2.V2SyncSnapshot>, address: Address,
                   after: Survivors, rest: map<LogKey, V2.V2SyncSnapshot>)
    requires HistoryReplayed(boot, live, history) && StacksSound(live)
    requires address in live && live[address] != []
    requires after == live[address := live[address][..|live[address]| - 1]]
    requires rest == history - {live[address][|live[address]| - 1].key}
    ensures HistoryReplayed(boot, after, rest)
  {
    forall k
      ensures k in rest <==> IsLive(after, k)
    {
      PopLive(live, address, k);
    }
    forall a, i: nat | a in after && i < |after[a]|
      ensures SavedBelow(boot, after, rest, a, i)
    {
      assert SavedBelow(boot, live, history, a, i);
      assert after[a][i] == live[a][i] && after[a][..i] == live[a][..i];
      assert live[a][i].key != live[address][|live[address]| - 1].key;
    }
  }

  lemma PopStacks(live: Survivors, address: Address)
    requires StacksSound(live) && address in live && live[address] != []
    ensures StacksSound(live[address := live[address][..|live[address]| - 1]])
  {}

  // ----- Removals out of order -----

  /** Removing a live Sync restores the replayed state exactly when it is its pool's newest, or when
      the state below it happens to equal the newest Sync. */
  lemma RemovalMatchesReplayExactly(boot: BookState, live: Survivors, book: BookState, log: Log, i: nat)
    requires Bootstrapped(boot) && Replayed(boot, live, book)
    requires IsV2Sync(live, log) && log.removed && AppliedLogKey(log).Ok?
    requires i < |live[log.address.value]| && live[log.address.value][i].key == AppliedLogKey(log).value
    ensures AfterLog(book, log).1 == Ok(Reverted)
    ensures AfterLog(book, log).0.history == book.history - {AppliedLogKey(log).value}
    ensures
      var address, stack := log.address.value, live[log.address.value];
      var replayed := Overwritten(boot.pools[address].v2, ReplayLog(live, log)[address]);
      AfterLog(book, log).0.pools[address] == V2Pool(replayed) <==>
        || i == |stack| - 1
        || V2.Snapshot(Overwritten(boot.pools[address].v2, stack[..i])) == stack[|stack| - 1].synced
  {
    var address, key, stack := log.address.value, AppliedLogKey(log).value, live[log.address.value];
    var pool := boot.pools[address].v2;
    assert SavedBelow(boot, live, book.history, address, i);
    RemovalRestores(book, log, Overwritten(pool, stack));
    RestoredMatches(pool, stack, i, key);
  }

  /** Removing a Sync in the history restores its snapshot and forgets it. */
  lemma RemovalRestores(book: BookState, log: Log, pool: V2.V2PoolState)
    requires log.address.Some? && log.address.value in book.pools && book.pools[log.address.value] == V2Pool(pool)
    requires log.decoded.Some? && log.decoded.value.kind == V2Sync && log.removed && AppliedLogKey(log).Ok?
    requires AppliedLogKey(log).value in book.history
    ensures
      var address, key := log.address.value, AppliedLogKey(log).value;
      AfterLog(book, log) == (BookState(book.pools[address := V2Pool(V2.Restore(pool, book.history[key]))],
                                        book.history - {key}), Ok(Reverted))
  {}

  /** Restoring the state below position `i` of a stack gives the state without that Sync exactly when
      it is the newest, or when the state below it equals the newest. */
  lemma RestoredMatches(pool: V2.V2PoolState, stack: seq<LiveSync>, i: nat, key: LogKey)
    requires i < |stack| && stack[i].key == key && forall j | 0 <= j < |stack| && j != i :: stack[j].key != key
    ensures V2.Restore(Overwritten(pool, stack), V2.Snapshot(Overwritten(pool, stack[..i])))
              == Overwritten(pool, Without(stack, key))
       <==> (i == |stack| - 1 || V2.Snapshot(Overwritten(pool, stack[..i])) == stack[|stack| - 1].synced)
  {
    if i == |stack| - 1 {
      WithoutLast(stack, key);
    } else {
      WithoutKeepsLast(stack, key);
    }
  }

  lemma {:induction false} WithoutKeepsLast(stack: seq<LiveSync>, key: LogKey)
    requires stack != [] && stack[|stack| - 1].key != key
    ensures
      var rest := Without(stack, key);
      rest != [] && rest[|rest| - 1] == stack[|stack| - 1]
  {
    if |stack| > 1 {
      WithoutKeepsLast(stack[1..], key);
    }
  }

  function SyncLog(key: LogKey, reserve: Amount, removed: bool): Log {
    Log(Some("pool"), Some(DecodedEvent(V2Sync, Some(reserve), Some(reserve), None, None, None)),
        Pending, Some(key.txHash), Some(key.logIndex), removed)
  }

  /** Two Syncs, then the removal of the older one: the book is back at bootstrap while replay keeps
      the newer Sync. */
  lemma OlderRemovalDiverges(pool: V2.V2PoolState, boot: BookState, live: Survivors)
    requires pool == V2.V2PoolState("pool", "a", "b", 10, 10, 30, None)
    requires boot == BookState(map["pool" := V2Pool(pool)], map[]) && live == NoSurvivors(boot)
    ensures Bootstrapped(boot)
    ensures
      var first, second := LogKey("tx", 1), LogKey("tx", 2);
      var logs := [SyncLog(first, 7, false), SyncLog(second, 8, false), SyncLog(first, 7, true)];
      && ApplyAll(boot, logs).pools == boot.pools
      && "pool" in ReplayAll(live, logs)
      && Overwritten(pool, ReplayAll(live, logs)["pool"]) == pool.(reserve0 := 8, reserve1 := 8)
  {
    var first, second := LogKey("tx", 1), LogKey("tx", 2);
    ThreeSteps(boot, live, SyncLog(first, 7, false), SyncLog(second, 8, false), SyncLog(first, 7, true));
    BookUndoesOlder(boot, pool, first, second);
    ReplayKeepsNewer(live, first, second);
  }

  lemma BookUndoesOlder(boot: BookState, pool: V2.V2PoolState, first: LogKey, second: LogKey)
    requires boot.pools == map["pool" := V2Pool(pool)] && pool.address == "pool" && first != second
    ensures
      var synced := AfterLog(AfterLog(boot, SyncLog(first, 7, false)).0, SyncLog(second, 8, false)).0;
      AfterLog(synced, SyncLog(first, 7, true)).0.pools == boot.pools
  {
    SyncedBook(boot, first, 7);
    SyncedBook(AfterLog(boot, SyncLog(first, 7, false)).0, second, 8);
  }

  lemma ReplayKeepsNewer(live: Survivors, first: LogKey, second: LogKey)
    requires "pool" in live && live["pool"] == [] && first != second
    ensures
      var synced := ReplayLog(ReplayLog(live, SyncLog(first, 7, false)), SyncLog(second, 8, false));
      var undone := ReplayLog(synced, SyncLog(first, 7, true));
      "pool" in undone && undone["pool"] == [LiveSync(second, V2.V2SyncSnapshot(8, 8, None))]
  {
    var sync1, sync2 := LiveSync(first, V2.V2SyncSnapshot(7, 7, None)), LiveSync(second, V2.V2SyncSnapshot(8, 8, None));
    assert ReplayLog(live, SyncLog(first, 7, false))["pool"] == [sync1];
    assert [sync1, sync2][1..] == [sync2];
    assert Without([sync2], first) == [sync2];
  }

  lemma SyncedBook(book: BookState, key: LogKey, reserve: Amount)
    requires "pool" in book.pools && book.pools["pool"].V2Pool? && book.pools["pool"].v2.address == "pool"
    requires reserve > 0
    ensures
      var pool := book.pools["pool"].v2;
      var synced := V2.V2SyncSnapshot(reserve, reserve, None);
      AfterLog(book, SyncLog(key, reserve, false)).0
        == BookState(book.pools["pool" := V2Pool(V2.Restore(pool, synced))], book.history[key := V2.Snapshot(pool)])
  {}

  lemma ThreeSteps(boot: BookState, live: Survivors, one: Log, two: Log, three: Log)
    ensures ApplyAll(boot, [one, two, three]) == AfterLog(AfterLog(AfterLog(boot, one).0, two).0, three).0
    ensures ReplayAll(live, [one, two, three]) == ReplayLog(ReplayLog(ReplayLog(live, one), two), three)
  {
    assert [one, two, three][..2] == [one, two] && [one, two][..1] == [one] && [one][..0] == [];
    assert ApplyAll(boot, [one]) == AfterLog(boot, one).0;
    assert ReplayAll(live, [one]) == ReplayLog(live, one);
  }
}
