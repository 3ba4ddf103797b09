/** When the book follows replay over a whole run of Syncs and removals: exactly when every removal
    takes its pool's newest live Sync. */
module ReplayRuns {
  import opened Common
  import opened PoolBook
  import opened Replay
  import V2 = V2Pool

  /** A Sync of a pool, or the removal of one, without its reserves. */
  datatype Shape = Shape(address: Address, key: LogKey, removed: bool)

  type Reserves = (Amount, Amount)

  function ShapeLog(shape: Shape, reserves: Reserves): Log {
    Log(Some(shape.address), Some(DecodedEvent(V2Sync, Some(reserves.0), Some(reserves.1), None, None, None)),
        Pending, Some(shape.key.txHash), Some(shape.key.logIndex), shape.removed)
  }

  function Logs(shapes: seq<Shape>, reserves: seq<Reserves>): (logs: seq<Log>)
    requires |reserves| == |shapes|
    ensures |logs| == |shapes|
  {
    if shapes == [] then [] else
    var last := |shapes| - 1;
    Logs(shapes[..last], reserves[..last]) + [ShapeLog(shapes[last], reserves[last])]
  }

  // ----- Keys alone -----

  type KeyStacks = map<Address, seq<LogKey>>

  function WithoutKey(keys: seq<LogKey>, key: LogKey): seq<LogKey> {
    if keys == [] then [] else (if keys[0] == key then [] else [keys[0]]) + WithoutKey(keys[1..], key)
  }

  function StackStep(stacks: KeyStacks, shape: Shape): KeyStacks {
    if shape.address !in stacks then stacks
    else if shape.removed then stacks[shape.address := WithoutKey(stacks[shape.address], shape.key)]
    else stacks[shape.address := stacks[shape.address] + [shape.key]]
  }

  /** The live keys of every V2 pool after some shapes, oldest first. */
  function Stacks(boot: BookState, shapes: seq<Shape>): KeyStacks {
    if shapes == [] then map address | address in boot.pools && boot.pools[address].V2Pool? :: []
    else StackStep(Stacks(boot, shapes[..|shapes| - 1]), shapes[|shapes| - 1])
  }

  ghost predicate KeyLive(stacks: KeyStacks, key: LogKey) {
    exists address :: address in stacks && key in stacks[address]
  }

  /** Syncs have keys that are not live; removals name a live Sync of their pool. */
  ghost predicate Feasible(stacks: KeyStacks, shape: Shape) {
    && shape.address in stacks
    && if shape.removed then shape.key in stacks[shape.address] else !KeyLive(stacks, shape.key)
  }

  predicate TakesNewest(stacks: KeyStacks, shape: Shape) {
    shape.removed && shape.address in stacks ==>
      stacks[shape.address] != [] && stacks[shape.address][|stacks[shape.address]| - 1] == shape.key
  }

  ghost predicate FeasibleRun(boot: BookState, shapes: seq<Shape>) {
    shapes != [] ==>
      && FeasibleRun(boot, shapes[..|shapes| - 1])
      && Feasible(Stacks(boot, shapes[..|shapes| - 1]), shapes[|shapes| - 1])
  }

  predicate NewestFirst(boot: BookState, shapes: seq<Shape>) {
    shapes != [] ==>
      && NewestFirst(boot, shapes[..|shapes| - 1])
      && TakesNewest(Stacks(boot, shapes[..|shapes| - 1]), shapes[|shapes| - 1])
  }

  predicate Positive(reserves: seq<Reserves>) {
    forall n | 0 <= n < |reserves| :: reserves[n].0 > 0 && reserves[n].1 > 0
  }

  // ----- Against the replay -----

  ghost predicate PoolMatches(boot: BookState, logs: seq<Log>, address: Address)
    requires address in boot.pools && boot.pools[address].V2Pool?
  {
    && address in ReplayAll(NoSurvivors(boot), logs) && address in ApplyAll(boot, logs).pools
    && ApplyAll(boot, logs).pools[address]
       == V2Pool(Overwritten(boot.pools[address].v2, ReplayAll(NoSurvivors(boot), logs)[address]))
  }

  /** Every V2 pool is its replayed state. */
  ghost predicate BookMatches(boot: BookState, logs: seq<Log>) {
    forall address | address in boot.pools && boot.pools[address].V2Pool? :: PoolMatches(boot, logs, address)
  }

  /** Every V2 pool is its replayed state after each log. */
  ghost predicate MatchesThroughout(boot: BookState, shapes: seq<Shape>, reserves: seq<Reserves>)
    requires |reserves| == |shapes|
  {
    && BookMatches(boot, Logs(shapes, reserves))
    && (shapes != [] ==> MatchesThroughout(boot, shapes[..|shapes| - 1], reserves[..|shapes| - 1]))
  }

  function KeysOf(stack: seq<LiveSync>): (keys: seq<LogKey>)
    ensures |keys| == |stack| && forall i | 0 <= i < |stack| :: keys[i] == stack[i].key
  {
    seq(|stack|, i requires 0 <= i < |stack| => stack[i].key)
  }

  lemma {:induction false} KeysOfWithout(stack: seq<LiveSync>, key: LogKey)
    ensures KeysOf(Without(stack, key)) == WithoutKey(KeysOf(stack), key)
  {
    if stack != [] {
      KeysOfWithout(stack[1..], key);
      assert KeysOf(stack)[1..] == KeysOf(stack[1..]);
    }
  }

  /** The survivors of a run have the keys of the stacks. */
  ghost predicate SameKeys(live: Survivors, stacks: KeyStacks) {
    live.Keys == stacks.Keys && forall address | address in live :: KeysOf(live[address]) == stacks[address]
  }

  lemma SameKeysStep(live: Survivors, stacks: KeyStacks, shape: Shape, reserves: Reserves)
    requires SameKeys(live, stacks)
    ensures SameKeys(ReplayLog(live, ShapeLog(shape, reserves)), StackStep(stacks, shape))
  {
    if shape.address in live && shape.removed {
      KeysOfWithout(live[shape.address], shape.key);
    }
  }

  lemma {:induction false} RunKeys(boot: BookState, shapes: seq<Shape>, reserves: seq<Reserves>)
    requires |reserves| == |shapes|
    ensures SameKeys(ReplayAll(NoSurvivors(boot), Logs(shapes, reserves)), Stacks(boot, shapes))
  {
    if shapes != [] {
      var last := |shapes| - 1;
      RunKeys(boot, shapes[..last], reserves[..last]);
      SameKeysStep(ReplayAll(NoSurvivors(boot), Logs(shapes[..last], reserves[..last])), Stacks(boot, shapes[..last]),
                   shapes[last], reserves[last]);
      assert Logs(shapes, reserves)[..last] == Logs(shapes[..last], reserves[..last]);
    }
  }

  // ----- Newest first is enough -----

  lemma LiveKeys(live: Survivors, stacks: KeyStacks, key: LogKey)
    requires SameKeys(live, stacks)
    ensures IsLive(live, key) <==> KeyLive(stacks, key)
  {
    if IsLive(live, key) {
      var address, i :| address in live && 0 <= i < |live[address]| && live[address][i].key == key;
      assert stacks[address][i] == key;
    }
    if KeyLive(stacks, key) {
      var address :| address in stacks && key in stacks[address];
      var i :| 0 <= i < |stacks[address]| && stacks[address][i] == key;
      assert live[address][i].key == key;
    }
  }

  lemma ShapeExpected(boot: BookState, live: Survivors, stacks: KeyStacks, shape: Shape, reserves: Reserves)
    requires SameKeys(live, stacks) && Feasible(stacks, shape) && TakesNewest(stacks, shape)
    requires reserves.0 > 0 && reserves.1 > 0
    ensures Expected(boot, live, ShapeLog(shape, reserves))
  {
    LiveKeys(live, stacks, shape.key);
  }

  lemma {:induction false} NewestFirstIsExpected(boot: BookState, shapes: seq<Shape>, reserves: seq<Reserves>)
    requires |reserves| == |shapes| && Positive(reserves) && FeasibleRun(boot, shapes) && NewestFirst(boot, shapes)
    ensures ExpectedRun(boot, Logs(shapes, reserves))
  {
    if shapes != [] {
      var last := |shapes| - 1;
      NewestFirstIsExpected(boot, shapes[..last], reserves[..last]);
      RunKeys(boot, shapes[..last], reserves[..last]);
      ShapeExpected(boot, ReplayAll(NoSurvivors(boot), Logs(shapes[..last], reserves[..last])),
                    Stacks(boot, shapes[..last]), shapes[last], reserves[last]);
      ExpectedSnoc(boot, Logs(shapes[..last], reserves[..last]), ShapeLog(shapes[last], reserves[last]));
    }
  }

  lemma ExpectedSnoc(boot: BookState, logs: seq<Log>, log: Log)
    requires ExpectedRun(boot, logs) && Expected(boot, ReplayAll(NoSurvivors(boot), logs), log)
    ensures ExpectedRun(boot, logs + [log])
  {
    forall n | 0 <= n < |logs| + 1
      ensures Expected(boot, ReplayAll(NoSurvivors(boot), (logs + [log])[..n]), (logs + [log])[n])
    {
      assert n < |logs| ==> (logs + [log])[..n] == logs[..n];
      assert n == |logs| ==> (logs + [log])[..n] == logs;
    }
  }

  lemma ReplayedMatches(boot: BookState, logs: seq<Log>)
    requires Replayed(boot, ReplayAll(NoSurvivors(boot), logs), ApplyAll(boot, logs))
    ensures BookMatches(boot, logs)
  {}

  lemma {:induction false} NewestFirstMatches(boot: BookState, shapes: seq<Shape>, reserves: seq<Reserves>)
    requires Bootstrapped(boot) && |reserves| == |shapes| && Positive(reserves)
    requires FeasibleRun(boot, shapes) && NewestFirst(boot, shapes)
    ensures MatchesThroughout(boot, shapes, reserves)
    decreases |shapes|
  {
    NewestFirstIsExpected(boot, shapes, reserves);
    BookRefinesReplay(boot, Logs(shapes, reserves));
    ReplayedMatches(boot, Logs(shapes, reserves));
    if shapes != [] {
      NewestFirstMatches(boot, shapes[..|shapes| - 1], reserves[..|shapes| - 1]);
    }
  }

  // ----- And necessary -----

  /** A reserve for a key: `marked` for one key, `plain` for the others. */
  function KeyReserve(key: LogKey, top: LogKey, plain: Amount): Amount {
    if key == top then (if plain == 1 then 2 else 1) else plain
  }

  /** Reserves that tell one key from the rest, which look like the bootstrap pool. */
  predicate Marking(shapes: seq<Shape>, reserves: seq<Reserves>, top: LogKey, pool: V2.V2PoolState) {
    && |reserves| == |shapes|
    && forall n | 0 <= n < |shapes| :: reserves[n] == (KeyReserve(shapes[n].key, top, pool.reserve0), pool.reserve1)
  }

  function MarkedReserves(shapes: seq<Shape>, top: LogKey, pool: V2.V2PoolState): (reserves: seq<Reserves>)
    ensures Marking(shapes, reserves, top, pool)
  {
    seq(|shapes|, n requires 0 <= n < |shapes| => (KeyReserve(shapes[n].key, top, pool.reserve0), pool.reserve1))
  }

  ghost predicate Marked(live: Survivors, top: LogKey, plain: Amount) {
    forall address, i | address in live && 0 <= i < |live[address]| ::
      live[address][i].synced.reserve0 == KeyReserve(live[address][i].key, top, plain)
  }

  lemma {:induction false} WithoutMembers(stack: seq<LiveSync>, key: LogKey, x: LiveSync)
    requires x in Without(stack, key)
    ensures x in stack
  {
    if x != stack[0] { WithoutMembers(stack[1..], key, x); }
  }

  lemma MarkedStep(live: Survivors, shape: Shape, top: LogKey, plain: Amount, reserve1: Amount)
    requires Marked(live, top, plain)
    ensures Marked(ReplayLog(live, ShapeLog(shape, (KeyReserve(shape.key, top, plain), reserve1))), top, plain)
  {
    var after: Survivors := ReplayLog(live, ShapeLog(shape, (KeyReserve(shape.key, top, plain), reserve1)));
    forall address: Address, i: int | address in after && 0 <= i < |after[address]|
      ensures after[address][i].synced.reserve0 == KeyReserve(after[address][i].key, top, plain)
    {
      if address == shape.address && shape.removed {
        WithoutMembers(live[address], shape.key, after[address][i]);
        var j :| 0 <= j < |live[address]| && live[address][j] == after[address][i];
      } else if address in live && i < |live[address]| {
        assert after[address][i] == live[address][i];
      }
    }
  }

  lemma {:induction false} RunMarked(boot: BookState, shapes: seq<Shape>, reserves: seq<Reserves>, top: LogKey,
                                     pool: V2.V2PoolState)
    requires Marking(shapes, reserves, top, pool)
    ensures Marked(ReplayAll(NoSurvivors(boot), Logs(shapes, reserves)), top, pool.reserve0)
  {
    if shapes != [] {
      var last := |shapes| - 1;
      RunMarked(boot, shapes[..last], reserves[..last], top, pool);
      MarkedStep(ReplayAll(NoSurvivors(boot), Logs(shapes[..last], reserves[..last])), shapes[last], top,
                 pool.reserve0, pool.reserve1);
      assert Logs(shapes, reserves)[..last] == Logs(shapes[..last], reserves[..last]);
    }
  }

  /** The state below the newest Sync has the bootstrap reserve, the newest Sync has not. */
  lemma NewestStandsOut(pool: V2.V2PoolState, stack: seq<LiveSync>, i: nat, top: LogKey)
    requires i < |stack| - 1 && stack[|stack| - 1].key == top
    requires forall j | 0 <= j < |stack| - 1 :: stack[j].key != top
    requires forall j | 0 <= j < |stack| :: stack[j].synced.reserve0 == KeyReserve(stack[j].key, top, pool.reserve0)
    ensures V2.Snapshot(Overwritten(pool, stack[..i])) != stack[|stack| - 1].synced
  {}

  /** With these reserves, removing a Sync below the newest one diverges. */
  lemma OlderRemovalDivergesHere(boot: BookState, live: Survivors, book: BookState, shape: Shape, i: nat,
                                 reserves: Reserves, top: LogKey, pool: V2.V2PoolState)
    requires Bootstrapped(boot) && Replayed(boot, live, book)
    requires shape.address in boot.pools && boot.pools[shape.address] == V2Pool(pool)
    requires RemovesOlder(live, shape, i, top, pool.reserve0)
    ensures Diverges(boot, live, book, ShapeLog(shape, reserves), shape.address)
  {
    var stack := live[shape.address];
    assert forall j | 0 <= j < |stack| - 1 :: stack[j].key != top;
    NewestStandsOut(pool, stack, i, top);
    RemovalMatchesReplayExactly(boot, live, book, ShapeLog(shape, reserves), i);
  }

  /** After this log the pool is not its replayed state. */
  ghost predicate Diverges(boot: BookState, live: Survivors, book: BookState, log: Log, address: Address) {
    && address in boot.pools && boot.pools[address].V2Pool?
    && (address in ReplayLog(live, log) && address in AfterLog(book, log).0.pools ==>
          AfterLog(book, log).0.pools[address]
            != V2Pool(Overwritten(boot.pools[address].v2, ReplayLog(live, log)[address])))
  }

  lemma DivergenceShows(boot: BookState, logs: seq<Log>, log: Log, address: Address)
    requires Diverges(boot, ReplayAll(NoSurvivors(boot), logs), ApplyAll(boot, logs), log, address)
    ensures !BookMatches(boot, logs + [log])
  {
    assert (logs + [log])[..|logs|] == logs;
    assert !PoolMatches(boot, logs + [log], address);
  }

  /** The first removal that does not take the newest: where it stands, and what it names. */
  lemma {:induction false} FirstOutOfOrder(boot: BookState, shapes: seq<Shape>) returns (n: nat)
    requires FeasibleRun(boot, shapes) && !NewestFirst(boot, shapes)
    ensures n < |shapes| && FeasibleRun(boot, shapes[..n + 1]) && NewestFirst(boot, shapes[..n])
    ensures shapes[n].removed && !TakesNewest(Stacks(boot, shapes[..n]), shapes[n])
    ensures Feasible(Stacks(boot, shapes[..n]), shapes[n]) && FeasibleRun(boot, shapes[..n])
  {
    var last := |shapes| - 1;
    if NewestFirst(boot, shapes[..last]) {
      n := last;
      assert shapes[..n + 1] == shapes;
    } else {
      n := FirstOutOfOrder(boot, shapes[..last]);
      assert shapes[..last][..n] == shapes[..n] && shapes[..last][..n + 1] == shapes[..n + 1];
    }
  }

  lemma {:induction false} PrefixMatches(boot: BookState, shapes: seq<Shape>, reserves: seq<Reserves>, n: nat)
    requires |reserves| == |shapes| && n <= |shapes| && MatchesThroughout(boot, shapes, reserves)
    ensures BookMatches(boot, Logs(shapes[..n], reserves[..n]))
    decreases |shapes|
  {
    if n == |shapes| {
      assert shapes[..n] == shapes && reserves[..n] == reserves;
    } else {
      var last := |shapes| - 1;
      assert shapes[..last][..n] == shapes[..n] && reserves[..last][..n] == reserves[..n];
      PrefixMatches(boot, shapes[..last], reserves[..last], n);
    }
  }

  lemma OutOfOrderDiverges(boot: BookState, shapes: seq<Shape>) returns (reserves: seq<Reserves>)
    requires Bootstrapped(boot) && FeasibleRun(boot, shapes) && !NewestFirst(boot, shapes)
    ensures |reserves| == |shapes| && Positive(reserves) && !MatchesThroughout(boot, shapes, reserves)
  {
    var n := FirstOutOfOrder(boot, shapes);
    var top, pool := NewestKey(boot, shapes[..n], shapes[n]);
    reserves := MarkedReserves(shapes, top, pool);
    MarkedPositive(boot, shapes, reserves, top, pool, shapes[n].address);
    NewestFirstIsExpected(boot, shapes[..n], reserves[..n]);
    PrefixDiverges(boot, shapes[..n], reserves[..n], shapes[n], top, pool, reserves[n]);
    DivergesThroughout(boot, shapes, reserves, n);
  }

  lemma NewestKey(boot: BookState, shapes: seq<Shape>, shape: Shape) returns (top: LogKey, pool: V2.V2PoolState)
    requires shape.removed && Feasible(Stacks(boot, shapes), shape)
    ensures shape.address in boot.pools && boot.pools[shape.address] == V2Pool(pool)
    ensures NewestIs(Stacks(boot, shapes), shape.address, top)
  {
    StacksOfBoot(boot, shapes);
    pool := boot.pools[shape.address].v2;
    var keys := Stacks(boot, shapes)[shape.address];
    top := keys[|keys| - 1];
  }

  predicate NewestIs(stacks: KeyStacks, address: Address, top: LogKey) {
    address in stacks && stacks[address] != [] && stacks[address][|stacks[address]| - 1] == top
  }

  lemma DivergesThroughout(boot: BookState, shapes: seq<Shape>, reserves: seq<Reserves>, n: nat)
    requires n < |shapes| == |reserves|
    requires !BookMatches(boot, Logs(shapes[..n], reserves[..n]) + [ShapeLog(shapes[n], reserves[n])])
    ensures !MatchesThroughout(boot, shapes, reserves)
  {
    assert shapes[..n + 1][..n] == shapes[..n] && reserves[..n + 1][..n] == reserves[..n];
    if MatchesThroughout(boot, shapes, reserves) {
      PrefixMatches(boot, shapes, reserves, n + 1);
    }
  }

  lemma {:induction false} StacksOfBoot(boot: BookState, shapes: seq<Shape>)
    ensures forall address :: address in Stacks(boot, shapes) <==> address in boot.pools && boot.pools[address].V2Pool?
  {
    if shapes != [] { StacksOfBoot(boot, shapes[..|shapes| - 1]); }
  }

  lemma PrefixDiverges(boot: BookState, shapes: seq<Shape>, reserves: seq<Reserves>, shape: Shape, top: LogKey,
                       pool: V2.V2PoolState, reserve: Reserves)
    requires Bootstrapped(boot) && Marking(shapes, reserves, top, pool) && ExpectedRun(boot, Logs(shapes, reserves))
    requires shape.removed && Feasible(Stacks(boot, shapes), shape) && !TakesNewest(Stacks(boot, shapes), shape)
    requires shape.address in boot.pools && boot.pools[shape.address] == V2Pool(pool)
    requires NewestIs(Stacks(boot, shapes), shape.address, top)
    ensures !BookMatches(boot, Logs(shapes, reserves) + [ShapeLog(shape, reserve)])
  {
    var i := OlderInRun(boot, shapes, reserves, shape, top, pool);
    LogsDiverge(boot, Logs(shapes, reserves), shape, i, reserve, top, pool);
  }

  lemma OlderInRun(boot: BookState, shapes: seq<Shape>, reserves: seq<Reserves>, shape: Shape, top: LogKey,
                   pool: V2.V2PoolState) returns (i: nat)
    requires Marking(shapes, reserves, top, pool) && shape.removed && NewestIs(Stacks(boot, shapes), shape.address, top)
    requires Feasible(Stacks(boot, shapes), shape) && !TakesNewest(Stacks(boot, shapes), shape)
    ensures RemovesOlder(ReplayAll(NoSurvivors(boot), Logs(shapes, reserves)), shape, i, top, pool.reserve0)
  {
    RunMarked(boot, shapes, reserves, top, pool);
    i := OlderPosition(boot, shapes, reserves, shape, top);
  }

  /** A removal of the Sync at `i` of a marked stack, below the newest. */
  ghost predicate RemovesOlder(live: Survivors, shape: Shape, i: nat, top: LogKey, plain: Amount) {
    && shape.removed && shape.address in live && i < |live[shape.address]| - 1 && live[shape.address][i].key == shape.key
    && live[shape.address][|live[shape.address]| - 1].key == top && Marked(live, top, plain)
  }

  lemma LogsDiverge(boot: BookState, logs: seq<Log>, shape: Shape, i: nat, reserve: Reserves, top: LogKey,
                    pool: V2.V2PoolState)
    requires Bootstrapped(boot) && ExpectedRun(boot, logs)
    requires shape.address in boot.pools && boot.pools[shape.address] == V2Pool(pool)
    requires RemovesOlder(ReplayAll(NoSurvivors(boot), logs), shape, i, top, pool.reserve0)
    ensures !BookMatches(boot, logs + [ShapeLog(shape, reserve)])
  {
    RunReplayed(boot, logs);
    ReplayedDiverges(boot, logs, ReplayAll(NoSurvivors(boot), logs), ApplyAll(boot, logs), shape, i, reserve, top, pool);
  }

  lemma RunReplayed(boot: BookState, logs: seq<Log>)
    requires Bootstrapped(boot) && ExpectedRun(boot, logs)
    ensures Replayed(boot, ReplayAll(NoSurvivors(boot), logs), ApplyAll(boot, logs))
  {
    BookRefinesReplay(boot, logs);
  }

  lemma ReplayedDiverges(boot: BookState, logs: seq<Log>, live: Survivors, book: BookState, shape: Shape, i: nat,
                         reserve: Reserves, top: LogKey, pool: V2.V2PoolState)
    requires live == ReplayAll(NoSurvivors(boot), logs) && book == ApplyAll(boot, logs)
    requires Bootstrapped(boot) && Replayed(boot, live, book)
    requires shape.address in boot.pools && boot.pools[shape.address] == V2Pool(pool)
    requires RemovesOlder(live, shape, i, top, pool.reserve0)
    ensures !BookMatches(boot, logs + [ShapeLog(shape, reserve)])
  {
    OlderRemovalDivergesHere(boot, live, book, shape, i, reserve, top, pool);
    DivergenceShows(boot, logs, ShapeLog(shape, reserve), shape.address);
  }

  lemma MarkedPositive(boot: BookState, shapes: seq<Shape>, reserves: seq<Reserves>, top: LogKey,
                       pool: V2.V2PoolState, address: Address)
    requires Bootstrapped(boot) && address in boot.pools && boot.pools[address] == V2Pool(pool)
    requires Marking(shapes, reserves, top, pool)
    ensures Positive(reserves)
  {}

  /** Where a removal that does not take the newest points to, among the survivors. */
  lemma OlderPosition(boot: BookState, shapes: seq<Shape>, reserves: seq<Reserves>, shape: Shape, top: LogKey)
      returns (i: nat)
    requires |reserves| == |shapes| && shape.removed && NewestIs(Stacks(boot, shapes), shape.address, top)
    requires Feasible(Stacks(boot, shapes), shape) && !TakesNewest(Stacks(boot, shapes), shape)
    ensures
      var live := ReplayAll(NoSurvivors(boot), Logs(shapes, reserves));
      && shape.address in live && i < |live[shape.address]| - 1 && live[shape.address][i].key == shape.key
      && live[shape.address][|live[shape.address]| - 1].key == top
  {
    RunKeys(boot, shapes, reserves);
    var keys := Stacks(boot, shapes)[shape.address];
    i :| 0 <= i < |keys| && keys[i] == shape.key;
  }

  /** For every feasible run of Syncs and removals over the V2 pools of a book: the book is its replay
      after every log, whatever the reserves, if and only if every removal takes the newest live Sync
      of its pool. */
  lemma RunMatchesReplayExactly(boot: BookState, shapes: seq<Shape>)
    requires Bootstrapped(boot) && FeasibleRun(boot, shapes)
    ensures NewestFirst(boot, shapes) <==>
            forall reserves | |reserves| == |shapes| && Positive(reserves) :: MatchesThroughout(boot, shapes, reserves)
  {
    if NewestFirst(boot, shapes) {
      forall reserves | |reserves| == |shapes| && Positive(reserves)
        ensures MatchesThroughout(boot, shapes, reserves)
      {
        NewestFirstMatches(boot, shapes, reserves);
      }
    } else {
      var reserves := OutOfOrderDiverges(boot, shapes);
    }
  }
}
