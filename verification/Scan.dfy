/** The scan of a pool book for two-leg loops: nested iteration in any hash-map order, then sort and
    dedup. Its result depends on the book alone. */
module Scan {
  import opened Common
  import opened V2Pool
  import opened Decision
  import opened Detection

  datatype Query = Query(
    blockContext: BlockContext,
    settlementToken: Address,
    amountIn: Amount,
    triggerTxHash: Option<string>)

  function InputFor(query: Query, first: V2PoolState, second: V2PoolState): LoopInput {
    LoopInput(query.blockContext, query.settlementToken, query.amountIn, first, second, query.triggerTxHash)
  }

  /** One iteration order over the V2 pools of a book: valid pools, each address once. Addresses are
      hexadecimal, so they contain no ':'. */
  predicate Enumerates(order: seq<V2PoolState>) {
    && (forall i | 0 <= i < |order| :: Valid(order[i]) && ':' !in order[i].address)
    && (forall i, j | 0 <= i < j < |order| :: order[i].address != order[j].address)
  }

  // ----- Collecting -----

  /** What the body of the nested loops pushes for one pair of pools. */
  function Pair(query: Query, first: V2PoolState, second: V2PoolState): seq<Opportunity>
    requires Valid(first) && Valid(second)
  {
    match OtherToken(first, query.settlementToken)
    case None => []
    case Some(middle) =>
      if first.address == second.address then []
      else if !ContainsToken(second, middle) || !ContainsToken(second, query.settlementToken) then []
      else
        match Detect(InputFor(query, first, second))
        case None => []
        case Some(found) => [found]
  }

  function Row(order: seq<V2PoolState>, query: Query, first: V2PoolState, n: nat): seq<Opportunity>
    requires Enumerates(order) && Valid(first) && n <= |order|
  {
    if n == 0 then [] else Row(order, query, first, n - 1) + Pair(query, first, order[n - 1])
  }

  function Concat(lists: seq<seq<Opportunity>>): seq<Opportunity> {
    if lists == [] then [] else Concat(lists[..|lists| - 1]) + lists[|lists| - 1]
  }

  function Rows(order: seq<V2PoolState>, query: Query): (rows: seq<seq<Opportunity>>)
    requires Enumerates(order)
    ensures |rows| == |order| && forall i | 0 <= i < |order| :: rows[i] == Row(order, query, order[i], |order|)
  {
    seq(|order|, i requires 0 <= i < |order| => Row(order, query, order[i], |order|))
  }

  // ----- Order -----

  /** Lexicographic order on strings. */
  predicate LexLess(a: string, b: string) {
    b != [] && (a == [] || a[0] < b[0] || (a[0] == b[0] && LexLess(a[1..], b[1..])))
  }

  /** Higher profit first, then the smaller id. */
  predicate Before(a: Opportunity, b: Opportunity) {
    || a.expectedNetProfit > b.expectedNetProfit
    || (a.expectedNetProfit == b.expectedNetProfit && LexLess(a.id, b.id))
  }

  predicate StrictlySorted(list: seq<Opportunity>) {
    forall a, b | 0 <= a < b < |list| :: Before(list[a], list[b])
  }

  lemma {:induction false} LexTotal(a: string, b: string)
    ensures a == b || LexLess(a, b) || LexLess(b, a)
    ensures !(LexLess(a, b) && LexLess(b, a))
    ensures a == b ==> !LexLess(a, b)
  {
    if a != [] && b != [] && a[0] == b[0] {
      LexTotal(a[1..], b[1..]);
      assert a == [a[0]] + a[1..] && b == [b[0]] + b[1..];
    }
  }

  lemma {:induction false} LexTransitive(a: string, b: string, c: string)
    requires LexLess(a, b) && LexLess(b, c)
    ensures LexLess(a, c)
  {
    if a != [] && a[0] == b[0] == c[0] {
      LexTransitive(a[1..], b[1..], c[1..]);
    }
  }

  lemma BeforeTransitive(a: Opportunity, b: Opportunity, c: Opportunity)
    requires Before(a, b) && Before(b, c)
    ensures Before(a, c)
  {
    if a.expectedNetProfit == b.expectedNetProfit == c.expectedNetProfit {
      LexTransitive(a.id, b.id, c.id);
    }
  }

  // ----- Sort and dedup -----

  /** Stable insertion: after every element that is not strictly later. */
  function Insert(x: Opportunity, list: seq<Opportunity>): seq<Opportunity> {
    if list == [] || Before(x, list[0]) then [x] + list else [list[0]] + Insert(x, list[1..])
  }

  function Sort(list: seq<Opportunity>): seq<Opportunity> {
    if list == [] then [] else Insert(list[|list| - 1], Sort(list[..|list| - 1]))
  }

  /** Drop an element whose id equals that of the element kept before it. */
  function DedupById(list: seq<Opportunity>): seq<Opportunity> {
    if list == [] then [] else
    var kept, x := DedupById(list[..|list| - 1]), list[|list| - 1];
    if kept != [] && kept[|kept| - 1].id == x.id then kept else kept + [x]
  }

  function ScanResult(order: seq<V2PoolState>, query: Query): seq<Opportunity>
    requires Enumerates(order)
  {
    DedupById(Sort(Concat(Rows(order, query))))
  }

  method DetectFromBook(order: seq<V2PoolState>, query: Query) returns (found: seq<Opportunity>)
    requires Enumerates(order)
    ensures found == ScanResult(order, query)
  {
    var collected := ScanFirstPools(order, query, Rows(order, query));
    found := DedupById(Sort(collected));
  }

  method ScanFirstPools(order: seq<V2PoolState>, query: Query, ghost rows: seq<seq<Opportunity>>)
      returns (found: seq<Opportunity>)
    requires Enumerates(order) && rows == Rows(order, query)
    ensures found == Concat(rows)
  {
    found := [];
    for i := 0 to |order|
      invariant found == Concat(rows[..i])
    {
      var row := ScanSecondPools(order, query, order[i]);
      ConcatStep(rows, i);
      found := found + row;
    }
    assert rows[..|order|] == rows;
  }

  lemma ConcatStep(lists: seq<seq<Opportunity>>, i: nat)
    requires i < |lists|
    ensures Concat(lists[..i + 1]) == Concat(lists[..i]) + lists[i]
  {
    assert lists[..i + 1][..i] == lists[..i];
  }

  method ScanSecondPools(order: seq<V2PoolState>, query: Query, first: V2PoolState)
      returns (row: seq<Opportunity>)
    requires Enumerates(order) && Valid(first)
    ensures row == Row(order, query, first, |order|)
  {
    row := [];
    if !ContainsToken(first, query.settlementToken) {
      NothingWithout(order, query, first, |order|);
      return;
    }
    for j := 0 to |order|
      invariant row == Row(order, query, first, j)
    {
      var pushed := CheckPair(query, first, order[j]);
      row := row + pushed;
    }
  }

  method CheckPair(query: Query, first: V2PoolState, second: V2PoolState) returns (pushed: seq<Opportunity>)
    requires Valid(first) && Valid(second)
    ensures pushed == Pair(query, first, second)
  {
    var middle := OtherToken(first, query.settlementToken);
    if middle.None? || first.address == second.address {
      return [];
    }
    if !ContainsToken(second, middle.value) || !ContainsToken(second, query.settlementToken) {
      return [];
    }
    var opportunity := Detect(InputFor(query, first, second));
    pushed := if opportunity.Some? then [opportunity.value] else [];
  }

  lemma {:induction false} NothingWithout(order: seq<V2PoolState>, query: Query, first: V2PoolState, n: nat)
    requires Enumerates(order) && Valid(first) && n <= |order|
    requires !ContainsToken(first, query.settlementToken)
    ensures Row(order, query, first, n) == []
  {
    if n > 0 { NothingWithout(order, query, first, n - 1); }
  }

  // ----- Ids name their pools -----

  /** Text up to the first ':' is determined. */
  lemma {:induction false} UntilColon(a: string, b: string, restA: string, restB: string)
    requires ':' !in a && ':' !in b && a + ":" + restA == b + ":" + restB
    ensures a == b && restA == restB
  {
    var textA, textB := a + ":" + restA, b + ":" + restB;
    assert textA[0] == (if a == [] then ':' else a[0]) && textB[0] == (if b == [] then ':' else b[0]);
    if a != [] && b != [] {
      assert textA[1..] == a[1..] + ":" + restA && textB[1..] == b[1..] + ":" + restB;
      UntilColon(a[1..], b[1..], restA, restB);
      assert a == [a[0]] + a[1..] && b == [b[0]] + b[1..];
    } else {
      assert a == b;
      assert textA[1..] == restA && textB[1..] == restB;
    }
  }

  lemma IdNamesPools(settlement: Address, amount: Amount, p: Address, q: Address, r: Address, s: Address)
    requires ':' !in p && ':' !in q && ':' !in r && ':' !in s
    requires OpportunityId(settlement, p, q, amount) == OpportunityId(settlement, r, s, amount)
    ensures p == r && q == s
  {
    var head, tail := "loop:" + settlement + ":", ":" + Decimal(amount);
    assert OpportunityId(settlement, p, q, amount) == head + (p + ":" + (q + tail));
    assert OpportunityId(settlement, r, s, amount) == head + (r + ":" + (s + tail));
    assert (head + (p + ":" + (q + tail)))[|head|..] == p + ":" + (q + tail);
    assert (head + (r + ":" + (s + tail)))[|head|..] == r + ":" + (s + tail);
    UntilColon(p, r, q + tail, s + tail);
    assert (q + tail)[..|q|] == q && (s + tail)[..|s|] == s;
  }

  predicate DistinctIds(list: seq<Opportunity>) {
    forall a, b | 0 <= a < b < |list| :: list[a].id != list[b].id
  }

  predicate Apart(a: seq<Opportunity>, b: seq<Opportunity>) {
    forall x, y | x in a && y in b :: x.id != y.id
  }

  predicate Pushes(query: Query, p: V2PoolState, q: V2PoolState, found: Opportunity) {
    Valid(p) && Valid(q) && Pair(query, p, q) == [found]
  }

  lemma PushedId(query: Query, p: V2PoolState, q: V2PoolState, found: Opportunity)
    requires Pushes(query, p, q, found)
    ensures found.id == OpportunityId(query.settlementToken, p.address, q.address, query.amountIn)
  {}

  lemma PairPushes(query: Query, p: V2PoolState, q: V2PoolState)
    requires Valid(p) && Valid(q)
    ensures Pair(query, p, q) == [] || Pushes(query, p, q, Pair(query, p, q)[0])
  {}

  lemma IdsDiffer(query: Query, p: Address, q: Address, r: Address, s: Address)
    requires ':' !in p && ':' !in q && ':' !in r && ':' !in s && (p != r || q != s)
    ensures OpportunityId(query.settlementToken, p, q, query.amountIn)
         != OpportunityId(query.settlementToken, r, s, query.amountIn)
  {
    if OpportunityId(query.settlementToken, p, q, query.amountIn)
    == OpportunityId(query.settlementToken, r, s, query.amountIn) {
      IdNamesPools(query.settlementToken, query.amountIn, p, q, r, s);
    }
  }

  /** `found` was pushed for `first` and one of the first `n` pools. */
  ghost predicate PushedInRow(order: seq<V2PoolState>, query: Query, first: V2PoolState, n: nat, found: Opportunity)
    requires n <= |order|
  {
    exists j :: 0 <= j < n && Pushes(query, first, order[j], found)
  }

  lemma {:induction false} RowMembers(order: seq<V2PoolState>, query: Query, first: V2PoolState, n: nat, found: Opportunity)
    requires Enumerates(order) && Valid(first) && n <= |order|
    ensures found in Row(order, query, first, n) <==> PushedInRow(order, query, first, n, found)
  {
    if n > 0 {
      RowMembers(order, query, first, n - 1, found);
      PairPushes(query, first, order[n - 1]);
      assert found in Pair(query, first, order[n - 1]) <==> Pushes(query, first, order[n - 1], found);
    }
  }

  lemma {:induction false} ConcatMembers(lists: seq<seq<Opportunity>>, x: Opportunity)
    ensures x in Concat(lists) <==> exists i :: 0 <= i < |lists| && x in lists[i]
  {
    if lists != [] {
      ConcatMembers(lists[..|lists| - 1], x);
    }
  }

  lemma DistinctConcat(a: seq<Opportunity>, b: seq<Opportunity>)
    requires DistinctIds(a) && DistinctIds(b) && Apart(a, b)
    ensures DistinctIds(a + b)
  {}

  lemma {:induction false} RowDistinct(order: seq<V2PoolState>, query: Query, first: V2PoolState, n: nat)
    requires Enumerates(order) && Valid(first) && ':' !in first.address && n <= |order|
    ensures DistinctIds(Row(order, query, first, n))
  {
    if n > 0 {
      RowDistinct(order, query, first, n - 1);
      CellApart(order, query, first, n - 1, order[n - 1]);
      DistinctConcat(Row(order, query, first, n - 1), Pair(query, first, order[n - 1]));
    }
  }

  lemma CellApart(order: seq<V2PoolState>, query: Query, first: V2PoolState, n: nat, second: V2PoolState)
    requires Enumerates(order) && Valid(first) && ':' !in first.address && n < |order| && second == order[n]
    ensures Apart(Row(order, query, first, n), Pair(query, first, second)) && DistinctIds(Pair(query, first, second))
  {
    PairPushes(query, first, second);
    forall x, y | x in Row(order, query, first, n) && y in Pair(query, first, second) ensures x.id != y.id {
      var q := RowIdNames(order, query, first, n, x);
      PushedId(query, first, second, y);
      IdsDiffer(query, first.address, q, first.address, second.address);
    }
  }

  lemma {:induction false} ConcatDistinct(lists: seq<seq<Opportunity>>)
    requires forall i | 0 <= i < |lists| :: DistinctIds(lists[i])
    requires forall i, j | 0 <= i < j < |lists| :: Apart(lists[i], lists[j])
    ensures DistinctIds(Concat(lists))
  {
    if lists != [] {
      var last := |lists| - 1;
      ConcatDistinct(lists[..last]);
      forall x, y | x in Concat(lists[..last]) && y in lists[last]
        ensures x.id != y.id
      {
        ConcatMembers(lists[..last], x);
        var i :| 0 <= i < last && x in lists[..last][i];
        assert Apart(lists[i], lists[last]);
      }
      DistinctConcat(Concat(lists[..last]), lists[last]);
    }
  }

  lemma CollectedDistinct(order: seq<V2PoolState>, query: Query)
    requires Enumerates(order)
    ensures DistinctIds(Concat(Rows(order, query)))
  {
    var rows := Rows(order, query);
    forall i | 0 <= i < |rows| ensures DistinctIds(rows[i]) {
      RowDistinct(order, query, order[i], |order|);
    }
    forall i, j | 0 <= i < j < |rows| ensures Apart(rows[i], rows[j]) {
      RowsApart(order, query, order[i], order[j]);
    }
    ConcatDistinct(rows);
  }

  lemma RowsApart(order: seq<V2PoolState>, query: Query, first: V2PoolState, second: V2PoolState)
    requires Enumerates(order) && Valid(first) && Valid(second) && first.address != second.address
    requires ':' !in first.address && ':' !in second.address
    ensures Apart(Row(order, query, first, |order|), Row(order, query, second, |order|))
  {
    forall x, y | x in Row(order, query, first, |order|) && y in Row(order, query, second, |order|)
      ensures x.id != y.id
    {
      var q := RowIdNames(order, query, first, |order|, x);
      var s := RowIdNames(order, query, second, |order|, y);
      IdsDiffer(query, first.address, q, second.address, s);
    }
  }

  /** An id in a row names its two pools. */
  lemma RowIdNames(order: seq<V2PoolState>, query: Query, first: V2PoolState, n: nat, found: Opportunity)
      returns (q: Address)
    requires Enumerates(order) && Valid(first) && n <= |order| && found in Row(order, query, first, n)
    ensures ':' !in q && exists j | 0 <= j < n :: order[j].address == q
    ensures found.id == OpportunityId(query.settlementToken, first.address, q, query.amountIn)
  {
    RowMembers(order, query, first, n, found);
    var j :| 0 <= j < n && Pushes(query, first, order[j], found);
    PushedId(query, first, order[j], found);
    q := order[j].address;
  }

  // ----- Sorting -----

  lemma {:induction false} InsertSorts(x: Opportunity, list: seq<Opportunity>)
    requires StrictlySorted(list) && DistinctIds(list) && forall y | y in list :: y.id != x.id
    ensures StrictlySorted(Insert(x, list)) && DistinctIds(Insert(x, list))
    ensures forall y :: y in Insert(x, list) <==> y == x || y in list
  {
    if list == [] {
    } else if Before(x, list[0]) {
      forall b | 0 < b < |list| ensures Before(x, list[b]) {
        BeforeTransitive(x, list[0], list[b]);
      }
    } else {
      LexTotal(x.id, list[0].id);
      var rest := Insert(x, list[1..]);
      InsertSorts(x, list[1..]);
      assert list == [list[0]] + list[1..];
      forall b | 0 <= b < |rest| ensures Before(list[0], rest[b]) && list[0].id != rest[b].id {
        assert rest[b] == x || rest[b] in list[1..];
      }
    }
  }

  lemma {:induction false} SortSorts(list: seq<Opportunity>)
    requires DistinctIds(list)
    ensures StrictlySorted(Sort(list)) && DistinctIds(Sort(list))
    ensures forall y :: y in Sort(list) <==> y in list
  {
    if list != [] {
      var last := |list| - 1;
      SortSorts(list[..last]);
      assert list == list[..last] + [list[last]];
      forall y | y in Sort(list[..last]) ensures y.id != list[last].id {
        assert y in list[..last];
      }
      InsertSorts(list[last], Sort(list[..last]));
    }
  }

  lemma {:induction false} DedupKeepsAll(list: seq<Opportunity>)
    requires DistinctIds(list)
    ensures DedupById(list) == list
  {
    if list != [] {
      var last := |list| - 1;
      var prefix := list[..last];
      DedupKeepsAll(prefix);
      assert last > 0 ==> prefix[last - 1].id != list[last].id;
      assert list == prefix + [list[last]];
    }
  }

  /** A strictly sorted list is determined by its members. */
  lemma {:induction false} SortedIsUnique(a: seq<Opportunity>, b: seq<Opportunity>)
    requires StrictlySorted(a) && StrictlySorted(b)
    requires forall x :: x in a <==> x in b
    ensures a == b
  {
    assert (a != [] ==> a[0] in b) && (b != [] ==> b[0] in a);
    if a != [] {
      LexTotal(a[0].id, b[0].id);
      assert a[0] == b[0];
      forall x ensures x in a[1..] <==> x in b[1..] {
        TailMembers(a, x);
        TailMembers(b, x);
      }
      SortedIsUnique(a[1..], b[1..]);
      assert a == [a[0]] + a[1..] && b == [b[0]] + b[1..];
    }
  }

  lemma TailMembers(list: seq<Opportunity>, x: Opportunity)
    requires list != [] && StrictlySorted(list)
    ensures x in list[1..] <==> x in list && x != list[0]
  {
    LexTotal(list[0].id, list[0].id);
    assert list == [list[0]] + list[1..];
  }

  // ----- The scan -----

  /** `found` is the report of a profitable, representable pair of distinct pools of the book, in this
      direction. */
  ghost predicate Reported(order: seq<V2PoolState>, query: Query, found: Opportunity) {
    exists p, q :: p in order && q in order && IsLoop(query, p, q, found)
  }

  predicate IsLoop(query: Query, p: V2PoolState, q: V2PoolState, found: Opportunity) {
    && Valid(p) && Valid(q) && p.address != q.address
    && Profitable(p, q, query.settlementToken, query.amountIn)
    && LegsRepresentable(p, q, query.settlementToken, query.amountIn)
    && Detect(InputFor(query, p, q)) == Some(found)
  }

  lemma PushesLoops(query: Query, p: V2PoolState, q: V2PoolState, found: Opportunity)
    ensures Pushes(query, p, q, found) <==> IsLoop(query, p, q, found)
  {
    if Valid(p) && Valid(q) {
      DetectsExactly(InputFor(query, p, q));
    }
  }

  /** The scan returns exactly the ordered pairs of distinct pools that share both tokens, are
      profitable in exact arithmetic and whose products fit; strictly sorted by profit and then id,
      and dedup removes nothing. */
  lemma ScanIsExact(order: seq<V2PoolState>, query: Query)
    requires Enumerates(order)
    ensures StrictlySorted(ScanResult(order, query))
    ensures forall found :: found in ScanResult(order, query) <==> Reported(order, query, found)
    ensures ScanResult(order, query) == Sort(Concat(Rows(order, query)))
  {
    var collected := Concat(Rows(order, query));
    CollectedDistinct(order, query);
    SortSorts(collected);
    DedupKeepsAll(Sort(collected));
    forall found ensures found in collected <==> Reported(order, query, found) {
      CollectedReports(order, query, found);
    }
  }

  lemma CollectedReports(order: seq<V2PoolState>, query: Query, found: Opportunity)
    requires Enumerates(order)
    ensures found in Concat(Rows(order, query)) <==> Reported(order, query, found)
  {
    var rows := Rows(order, query);
    ConcatMembers(rows, found);
    if found in Concat(rows) {
      var i :| 0 <= i < |rows| && found in rows[i];
      RowMembers(order, query, order[i], |order|, found);
      RowReports(order, query, i, found);
    }
    if Reported(order, query, found) {
      var p, q :| p in order && q in order && IsLoop(query, p, q, found);
      ReportInRow(order, query, p, q, found);
      var i :| 0 <= i < |order| && order[i] == p;
      RowMembers(order, query, order[i], |order|, found);
      assert found in rows[i];
    }
  }

  lemma RowReports(order: seq<V2PoolState>, query: Query, i: nat, found: Opportunity)
    requires i < |order| && PushedInRow(order, query, order[i], |order|, found)
    ensures Reported(order, query, found)
  {
    var j :| 0 <= j < |order| && Pushes(query, order[i], order[j], found);
    PushesLoops(query, order[i], order[j], found);
  }

  lemma ReportInRow(order: seq<V2PoolState>, query: Query, p: V2PoolState, q: V2PoolState, found: Opportunity)
    requires q in order && IsLoop(query, p, q, found)
    ensures PushedInRow(order, query, p, |order|, found)
  {
    PushesLoops(query, p, q, found);
    var j :| 0 <= j < |order| && order[j] == q;
  }

  /** Hence the result is the same for every iteration order of the same book. */
  lemma ScanIgnoresOrder(order: seq<V2PoolState>, other: seq<V2PoolState>, query: Query)
    requires Enumerates(order) && Enumerates(other)
    requires forall pool :: pool in order <==> pool in other
    ensures ScanResult(order, query) == ScanResult(other, query)
  {
    ScanIsExact(order, query);
    ScanIsExact(other, query);
    forall found ensures Reported(order, query, found) <==> Reported(other, query, found) {}
    SortedIsUnique(ScanResult(order, query), ScanResult(other, query));
  }
}
