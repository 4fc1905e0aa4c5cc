/** The allocator itself: entries are served in order of size and the shares go back to their original places. */
module DiagnosticAllocation {
  import opened DiagnosticBudget

  // ------------------------------------------------------------- the stable order by size

  ghost predicate InOrder(demands: seq<Demand>, order: seq<nat>) {
    && (forall j :: 0 <= j < |order| ==> order[j] < |demands|)
    && (forall j, k :: 0 <= j < k < |order| ==> demands[order[j]].size <= demands[order[k]].size)
  }

  /** The place for an entry of this size: after all listed entries that are no larger. */
  function PlaceFor(demands: seq<Demand>, order: seq<nat>, size: nat): (p: nat)
    requires InOrder(demands, order)
    ensures p <= |order|
    ensures forall j :: 0 <= j < p ==> demands[order[j]].size <= size
    ensures forall j :: p <= j < |order| ==> demands[order[j]].size > size
  {
    if order == [] then 0
    else if demands[order[|order| - 1]].size <= size then |order|
    else PlaceFor(demands, order[..|order| - 1], size)
  }

  function Inserted(order: seq<nat>, p: nat, i: nat): (next: seq<nat>)
    requires p <= |order|
    ensures |next| == |order| + 1
    ensures forall j :: 0 <= j < |next| ==> next[j] == if j < p then order[j] else if j == p then i else order[j - 1]
  {
    order[..p] + [i] + order[p..]
  }

  ghost predicate IsOrder(demands: seq<Demand>, order: seq<nat>, n: nat) {
    && n <= |demands| && |order| == n && InOrder(demands, order)
    && (forall j :: 0 <= j < n ==> order[j] < n)
    && (forall j, k :: 0 <= j < k < n ==> order[j] != order[k])
  }

  lemma InsertKeepsOrder(demands: seq<Demand>, front: seq<nat>, n: nat, p: nat)
    requires n < |demands| && IsOrder(demands, front, n) && p <= n
    requires forall j :: 0 <= j < p ==> demands[front[j]].size <= demands[n].size
    requires forall j :: p <= j < n ==> demands[front[j]].size > demands[n].size
    ensures IsOrder(demands, Inserted(front, p, n), n + 1)
  {
    var next := Inserted(front, p, n);
    hide Inserted;
    forall j, k | 0 <= j < k < |next|
      ensures next[j] != next[k] && next[j] < |demands| && next[k] < |demands|
      ensures demands[next[j]].size <= demands[next[k]].size
    {
    }
  }

  /** The order with index `n` put after the entries that are no larger. */
  function Extended(demands: seq<Demand>, front: seq<nat>, n: nat): (next: seq<nat>)
    requires n < |demands| && IsOrder(demands, front, n)
    ensures IsOrder(demands, next, n + 1)
  {
    var p := PlaceFor(demands, front, demands[n].size);
    InsertKeepsOrder(demands, front, n, p);
    Inserted(front, p, n)
  }

  /** The indices below `n`, by size, equal sizes in their original order. */
  function Order(demands: seq<Demand>, n: nat): (order: seq<nat>)
    requires n <= |demands|
    ensures IsOrder(demands, order, n)
  {
    if n == 0 then [] else Extended(demands, Order(demands, n - 1), n - 1)
  }

  /** Every index has its place in the order. */
  lemma {:induction false} OrderCovers(demands: seq<Demand>, n: nat, i: nat) returns (j: nat)
    requires i < n <= |demands|
    ensures j < n && Order(demands, n)[j] == i
  {
    var front := Order(demands, n - 1);
    var p := PlaceFor(demands, front, demands[n - 1].size);
    if i == n - 1 {
      j := p;
    } else {
      var k := OrderCovers(demands, n - 1, i);
      j := if k < p then k else k + 1;
    }
  }

  function Along(demands: seq<Demand>, order: seq<nat>): (sorted: seq<Demand>)
    requires forall j :: 0 <= j < |order| ==> order[j] < |demands|
    ensures |sorted| == |order| && forall j :: 0 <= j < |order| ==> sorted[j] == demands[order[j]]
  {
    seq(|order|, j requires 0 <= j < |order| => demands[order[j]])
  }

  function BySize(demands: seq<Demand>): (sorted: seq<Demand>)
    ensures Sorted(sorted) && |sorted| == |demands|
  {
    Along(demands, Order(demands, |demands|))
  }

  function Budget(budget: int): nat {
    Max(0, budget)
  }

  /** `result` holds, at the place of each entry, the share that filling by size gives it. */
  ghost predicate Allocated(demands: seq<Demand>, budget: int, result: seq<nat>) {
    && |result| == |demands|
    && var order := Order(demands, |demands|);
       forall j :: 0 <= j < |order| ==> result[order[j]] == Shares(BySize(demands), Budget(budget))[j]
  }

  // ------------------------------------------------------------- the loop

  lemma {:induction false} SharesTail(demands: seq<Demand>, remaining: nat, j: nat, left: nat)
    requires j < |demands|
    requires Shares(demands, remaining)[j..] == Shares(demands[j..], left)
    ensures var share := Share(demands[j..], left);
            && Shares(demands, remaining)[j] == share
            && share * demands[j].copies <= left
            && Shares(demands, remaining)[j + 1..] == Shares(demands[j + 1..], left - share * demands[j].copies)
            && Copies(demands[j + 1..]) == Copies(demands[j..]) - demands[j].copies
  {
    var tail := demands[j..];
    var rest, after, share := ServeFirst(tail, left);
    assert tail[0] == demands[j] && tail[1..] == demands[j + 1..];
    assert Shares(demands, remaining)[j..][1..] == Shares(demands, remaining)[j + 1..];
    assert Shares(demands, remaining)[j..][0] == share;
    assert ([share] + Shares(rest, after))[1..] == Shares(rest, after);
  }

  method AllocateDiagnosticBudgets(demands: seq<Demand>, budget: int) returns (shares: seq<nat>)
    ensures Allocated(demands, budget, shares)
  {
    hide Shares, Copies, Share, Order, BySize;
    var result := new nat[|demands|](_ => 0);
    var remaining: nat := Budget(budget);
    var order := Order(demands, |demands|);
    ghost var sorted := BySize(demands);
    SortedAlong(demands);
    var copies: nat := Copies(Along(demands, order));
    assert sorted[0..] == sorted && Shares(sorted, remaining)[0..] == Shares(sorted, remaining);
    for j := 0 to |order|
      invariant Shares(sorted, Budget(budget))[j..] == Shares(sorted[j..], remaining)
      invariant copies == Copies(sorted[j..])
      invariant forall k :: 0 <= k < j ==> result[order[k]] == Shares(sorted, Budget(budget))[k]
    {
      var index := order[j];
      var demand := demands[index];
      assert sorted[j] == demand;
      SharesTail(sorted, Budget(budget), j, remaining);
      var share := Min(demand.size, remaining / Max(1, copies));
      assert share == Share(sorted[j..], remaining) by { ShareIs(sorted[j..], remaining); }
      forall k | 0 <= k < j ensures order[k] != index {}
      result[index] := share;
      remaining := remaining - share * demand.copies;
      copies := copies - demand.copies;
    }
    shares := result[..];
  }

  lemma SortedAlong(demands: seq<Demand>)
    ensures BySize(demands) == Along(demands, Order(demands, |demands|))
  {
  }

  lemma ShareIs(demands: seq<Demand>, remaining: nat)
    requires demands != []
    ensures Share(demands, remaining) == Min(demands[0].size, remaining / Max(1, Copies(demands)))
  {
  }

  // ------------------------------------------------------------- totals do not depend on the order

  function Sum(values: seq<nat>): nat {
    if values == [] then 0 else Sum(values[..|values| - 1]) + values[|values| - 1]
  }

  function SumAt(values: seq<nat>, order: seq<nat>): nat
    requires forall j :: 0 <= j < |order| ==> order[j] < |values|
  {
    if order == [] then 0 else SumAt(values, order[..|order| - 1]) + values[order[|order| - 1]]
  }

  lemma {:induction false} SumAtJoin(values: seq<nat>, a: seq<nat>, b: seq<nat>)
    requires forall j :: 0 <= j < |a| ==> a[j] < |values|
    requires forall j :: 0 <= j < |b| ==> b[j] < |values|
    ensures SumAt(values, a + b) == SumAt(values, a) + SumAt(values, b)
  {
    if b == [] {
      assert a + b == a;
    } else {
      SumAtJoin(values, a, b[..|b| - 1]);
      assert (a + b)[..|a + b| - 1] == a + b[..|b| - 1];
    }
  }

  lemma InsertedSums(values: seq<nat>, front: seq<nat>, p: nat, i: nat)
    requires p <= |front| && i < |values| && forall j :: 0 <= j < |front| ==> front[j] < |values|
    ensures SumAt(values, Inserted(front, p, i)) == SumAt(values, front) + values[i]
  {
    var a, b := front[..p], front[p..];
    assert front == a + b && Inserted(front, p, i) == a + [i] + b;
    SumAtJoin(values, a, b);
    SumAtJoin(values, a + [i], b);
    SumAtJoin(values, a, [i]);
  }

  lemma {:induction false} OrderSums(demands: seq<Demand>, n: nat, values: seq<nat>)
    requires n <= |demands| == |values|
    ensures SumAt(values, Order(demands, n)) == Sum(values[..n])
  {
    hide PlaceFor, Inserted, SumAt;
    if n > 0 {
      OrderSums(demands, n - 1, values);
      var front := Order(demands, n - 1);
      InsertedSums(values, front, PlaceFor(demands, front, demands[n - 1].size), n - 1);
      assert values[..n][..n - 1] == values[..n - 1];
    } else {
      SumAtNothing(values);
    }
  }

  lemma SumAtNothing(values: seq<nat>)
    ensures SumAt(values, []) == 0
  {
  }

  function Costs(demands: seq<Demand>, shares: seq<nat>): (costs: seq<nat>)
    requires |shares| == |demands|
    ensures |costs| == |demands|
    ensures forall i :: 0 <= i < |costs| ==> costs[i] == shares[i] * demands[i].copies
  {
    seq(|demands|, i requires 0 <= i < |demands| => shares[i] * demands[i].copies)
  }

  /** What an allocation costs: every share once per copy, in the original order. */
  function Cost(demands: seq<Demand>, shares: seq<nat>): nat
    requires |shares| == |demands|
  {
    Sum(Costs(demands, shares))
  }

  function Sizes(demands: seq<Demand>): (sizes: seq<nat>)
    ensures |sizes| == |demands| && forall i :: 0 <= i < |sizes| ==> sizes[i] == demands[i].size
  {
    seq(|demands|, i requires 0 <= i < |demands| => demands[i].size)
  }

  function CopyCounts(demands: seq<Demand>): (copies: seq<nat>)
    ensures |copies| == |demands| && forall i :: 0 <= i < |copies| ==> copies[i] == demands[i].copies
  {
    seq(|demands|, i requires 0 <= i < |demands| => demands[i].copies)
  }

  /** What entries capped at `level` would cost, entry by entry. */
  function Capped(demands: seq<Demand>, level: nat): (shares: seq<nat>)
    ensures |shares| == |demands| && forall i :: 0 <= i < |shares| ==> shares[i] == Min(demands[i].size, level)
  {
    seq(|demands|, i requires 0 <= i < |demands| => Min(demands[i].size, level))
  }

  lemma {:induction false} SpentIsSum(sorted: seq<Demand>, shares: seq<nat>)
    requires |sorted| == |shares|
    ensures Spent(sorted, shares) == Sum(Costs(sorted, shares))
  {
    if sorted != [] {
      SpentIsSum(sorted[1..], shares[1..]);
      var costs := Costs(sorted, shares);
      assert costs == [costs[0]] + Costs(sorted[1..], shares[1..]);
      SumFront(costs[0], Costs(sorted[1..], shares[1..]));
    }
  }

  lemma {:induction false} SumFront(first: nat, rest: seq<nat>)
    ensures Sum([first] + rest) == first + Sum(rest)
  {
    var all := [first] + rest;
    if rest == [] {
      assert all[..0] == [];
    } else {
      var last := |rest| - 1;
      SumFront(first, rest[..last]);
      assert all[..|all| - 1] == [first] + rest[..last];
    }
  }

  lemma {:induction false} SumAtIs(values: seq<nat>, order: seq<nat>, picked: seq<nat>)
    requires forall j :: 0 <= j < |order| ==> order[j] < |values|
    requires |picked| == |order| && forall j :: 0 <= j < |order| ==> picked[j] == values[order[j]]
    ensures Sum(picked) == SumAt(values, order)
  {
    if order != [] {
      SumAtIs(values, order[..|order| - 1], picked[..|order| - 1]);
    }
  }

  /** The cost of any shares is the same whether summed by size or in place. */
  lemma CostBySize(demands: seq<Demand>, shares: seq<nat>, along: seq<nat>)
    requires |shares| == |demands| == |along|
    requires var order := Order(demands, |demands|); forall j :: 0 <= j < |order| ==> along[j] == shares[order[j]]
    ensures Cost(demands, shares) == Spent(BySize(demands), along)
  {
    hide Order, Sum, SumAt, Spent;
    var order, sorted := Order(demands, |demands|), BySize(demands);
    SpentIsSum(sorted, along);
    SumAtIs(Costs(demands, shares), order, Costs(sorted, along));
    OrderSums(demands, |demands|, Costs(demands, shares));
    assert Costs(demands, shares)[..|demands|] == Costs(demands, shares);
  }

  lemma {:induction false} DemandIsSpent(demands: seq<Demand>, level: nat)
    ensures DemandUpTo(demands, level) == Spent(demands, Capped(demands, level))
  {
    if demands != [] {
      DemandIsSpent(demands[1..], level);
      assert Capped(demands, level)[1..] == Capped(demands[1..], level);
    }
  }

  lemma {:induction false} CopiesAreSpent(demands: seq<Demand>, ones: seq<nat>)
    requires |ones| == |demands| && forall i :: 0 <= i < |ones| ==> ones[i] == 1
    ensures Copies(demands) == Spent(demands, ones)
  {
    if demands != [] {
      CopiesAreSpent(demands[1..], ones[1..]);
    }
  }

  // ------------------------------------------------------------- what an allocation guarantees

  /** Entry `i` is at some place of the order, and its share is the one computed there. */
  lemma ShareAt(demands: seq<Demand>, budget: int, result: seq<nat>, i: nat) returns (j: nat)
    requires Allocated(demands, budget, result) && i < |demands|
    ensures j < |demands| && BySize(demands)[j] == demands[i]
    ensures result[i] == Shares(BySize(demands), Budget(budget))[j]
    ensures Order(demands, |demands|)[j] == i
  {
    hide Shares;
    j := OrderCovers(demands, |demands|, i);
  }

  /** Conservation: no entry gets more than its size, and all copies together stay within the budget. */
  lemma AllocationWithinBudget(demands: seq<Demand>, budget: int, result: seq<nat>)
    requires Allocated(demands, budget, result)
    ensures Cost(demands, result) <= Budget(budget)
    ensures forall i :: 0 <= i < |demands| ==> result[i] <= demands[i].size
  {
    hide Shares, Spent, Order, Cost;
    SpendsWithin(BySize(demands), Budget(budget));
    CostBySize(demands, result, Shares(BySize(demands), Budget(budget)));
    forall i | 0 <= i < |demands| ensures result[i] <= demands[i].size {
      var j := ShareAt(demands, budget, result, i);
    }
  }

  /** Whatever cap on all entries the budget could pay for, every shown entry gets at least that cap or its size. */
  lemma AllocationReachesLevel(demands: seq<Demand>, budget: int, result: seq<nat>, level: nat)
    requires Allocated(demands, budget, result) && Cost(demands, Capped(demands, level)) <= Budget(budget)
    ensures forall i :: 0 <= i < |demands| && demands[i].copies >= 1 ==> result[i] >= Min(demands[i].size, level)
  {
    hide Shares, Spent, Order, Cost;
    var sorted := BySize(demands);
    CostBySize(demands, Capped(demands, level), Capped(sorted, level));
    DemandIsSpent(sorted, level);
    LevelGuaranteed(sorted, Budget(budget), level);
    forall i | 0 <= i < |demands| && demands[i].copies >= 1 ensures result[i] >= Min(demands[i].size, level) {
      var j := ShareAt(demands, budget, result, i);
    }
  }

  function Largest(demands: seq<Demand>): (m: nat)
    ensures forall i :: 0 <= i < |demands| ==> demands[i].size <= m
  {
    if demands == [] then 0
    else
      var m := Largest(demands[..|demands| - 1]);
      if m < demands[|demands| - 1].size then demands[|demands| - 1].size else m
  }

  lemma {:induction false} SumMono(a: seq<nat>, b: seq<nat>)
    requires |a| == |b| && forall i :: 0 <= i < |a| ==> a[i] <= b[i]
    ensures Sum(a) <= Sum(b)
    ensures Sum(a) == Sum(b) ==> a == b
  {
    if a != [] {
      SumMono(a[..|a| - 1], b[..|b| - 1]);
      if Sum(a) == Sum(b) {
        assert a == a[..|a| - 1] + [a[|a| - 1]] && b == b[..|b| - 1] + [b[|b| - 1]];
      }
    }
  }

  /** Every shown entry gets its full size exactly when the total demand fits the budget. */
  lemma FullExactlyWhenFits(demands: seq<Demand>, budget: int, result: seq<nat>)
    requires Allocated(demands, budget, result)
    ensures (forall i :: 0 <= i < |demands| && demands[i].copies >= 1 ==> result[i] == demands[i].size)
       <==> Cost(demands, Sizes(demands)) <= Budget(budget)
  {
    AllocationWithinBudget(demands, budget, result);
    if Cost(demands, Sizes(demands)) <= Budget(budget) {
      assert Capped(demands, Largest(demands)) == Sizes(demands);
      AllocationReachesLevel(demands, budget, result, Largest(demands));
    }
    if forall i :: 0 <= i < |demands| && demands[i].copies >= 1 ==> result[i] == demands[i].size {
      assert Costs(demands, result) == Costs(demands, Sizes(demands)) by {
        forall i | 0 <= i < |demands| ensures Costs(demands, result)[i] == Costs(demands, Sizes(demands))[i] {
          if demands[i].copies == 0 {
            assert result[i] * 0 == 0 == demands[i].size * 0;
          }
        }
      }
    }
  }

  // ------------------------------------------------------------- entries that are never shown

  /** Some entry that is served no earlier than entry `i` is shown: a larger one, or an equal one from `i` on. */
  ghost predicate ShownFrom(demands: seq<Demand>, i: nat)
    requires i < |demands|
  {
    exists k :: 0 <= k < |demands| && demands[k].copies >= 1 && ServedNoEarlier(demands, i, k)
  }

  predicate ServedNoEarlier(demands: seq<Demand>, i: nat, k: nat)
    requires i < |demands| && k < |demands|
  {
    demands[k].size > demands[i].size || (demands[k].size == demands[i].size && k >= i)
  }

  /** Equal sizes stand in their original order. */
  ghost predicate Stable(demands: seq<Demand>, order: seq<nat>)
    requires forall j :: 0 <= j < |order| ==> order[j] < |demands|
  {
    forall j, k :: 0 <= j < k < |order| && demands[order[j]].size == demands[order[k]].size ==> order[j] < order[k]
  }

  lemma InsertKeepsStable(demands: seq<Demand>, front: seq<nat>, n: nat, p: nat)
    requires n < |demands| && IsOrder(demands, front, n) && Stable(demands, front) && p <= n
    requires forall j :: p <= j < n ==> demands[front[j]].size > demands[n].size
    ensures var next := Inserted(front, p, n);
            (forall j :: 0 <= j < |next| ==> next[j] < |demands|) && Stable(demands, next)
  {
    var next := Inserted(front, p, n);
    hide Inserted;
    forall j, k | 0 <= j < k < |next| && demands[next[j]].size == demands[next[k]].size ensures next[j] < next[k] {
    }
  }

  lemma ExtendedStable(demands: seq<Demand>, front: seq<nat>, n: nat)
    requires n < |demands| && IsOrder(demands, front, n) && Stable(demands, front)
    ensures Stable(demands, Extended(demands, front, n))
  {
    InsertKeepsStable(demands, front, n, PlaceFor(demands, front, demands[n].size));
    hide Stable, Inserted;
  }

  lemma {:induction false} OrderStable(demands: seq<Demand>, n: nat)
    requires n <= |demands|
    ensures Stable(demands, Order(demands, n))
  {
    if n > 0 {
      hide InOrder, Extended;
      OrderStable(demands, n - 1);
      ExtendedStable(demands, Order(demands, n - 1), n - 1);
    }
  }

  lemma PlacesInOrder(demands: seq<Demand>, order: seq<nat>, j: nat, k: nat)
    requires IsOrder(demands, order, |demands|) && Stable(demands, order) && j < |demands| && k < |demands|
    ensures j <= k <==> ServedNoEarlier(demands, order[j], order[k])
  {
    assert j == k || order[j] != order[k];
  }

  lemma PlacesFollow(demands: seq<Demand>, j: nat, k: nat)
    requires j < |demands| && k < |demands|
    ensures var order := Order(demands, |demands|); j <= k <==> ServedNoEarlier(demands, order[j], order[k])
  {
    OrderStable(demands, |demands|);
    PlacesInOrder(demands, Order(demands, |demands|), j, k);
    hide Order, Stable, ServedNoEarlier, InOrder;
  }

  lemma ShownLater(demands: seq<Demand>, i: nat, j: nat, k: nat)
    requires i < |demands| && j <= k < |demands| && Order(demands, |demands|)[j] == i
    requires BySize(demands)[k].copies >= 1
    ensures ShownFrom(demands, i)
  {
    SortedAlong(demands);
    PlacesFollow(demands, j, k);
    hide Order, BySize, ServedNoEarlier;
  }

  lemma ShownAt(demands: seq<Demand>, i: nat, j: nat) returns (k: nat)
    requires i < |demands| && j < |demands| && Order(demands, |demands|)[j] == i && ShownFrom(demands, i)
    ensures j <= k < |demands| && BySize(demands)[k].copies >= 1
  {
    var shown :| 0 <= shown < |demands| && demands[shown].copies >= 1 && ServedNoEarlier(demands, i, shown);
    k := OrderCovers(demands, |demands|, shown);
    PlacesFollow(demands, j, k);
    SortedAlong(demands);
    hide Order, BySize, ServedNoEarlier, InOrder;
  }

  lemma ShownFromPlace(demands: seq<Demand>, i: nat, j: nat)
    requires i < |demands| && j < |demands| && Order(demands, |demands|)[j] == i
    ensures Copies(BySize(demands)[j..]) >= 1 <==> ShownFrom(demands, i)
  {
    hide Order, BySize, Copies, ShownFrom;
    var sorted := BySize(demands);
    SomeShown(sorted[j..]);
    if x :| 0 <= x < |sorted[j..]| && sorted[j..][x].copies >= 1 {
      ShownLater(demands, i, j, j + x);
    }
    if ShownFrom(demands, i) {
      var k := ShownAt(demands, i, j);
      assert sorted[j..][k - j] == sorted[k];
    }
  }

  lemma TotalInPlace(demands: seq<Demand>)
    ensures TotalDemand(BySize(demands)) == Cost(demands, Sizes(demands))
  {
    var sorted := BySize(demands);
    SortedAlong(demands);
    CostBySize(demands, Sizes(demands), Sizes(sorted));
    TotalIsSpent(sorted);
  }

  lemma {:induction false} TotalIsSpent(demands: seq<Demand>)
    ensures TotalDemand(demands) == Spent(demands, Sizes(demands))
  {
    if demands != [] {
      TotalIsSpent(demands[1..]);
      assert Sizes(demands)[1..] == Sizes(demands[1..]);
    }
  }

  /**
   * When the total demand fits, any entry, shown or not, gets its full size exactly when an entry served no earlier is
   * shown, or when what the total demand leaves of the budget is at least its size.
   */
  lemma EntryFullExactly(demands: seq<Demand>, budget: int, result: seq<nat>, i: nat)
    requires Allocated(demands, budget, result) && i < |demands|
    requires Cost(demands, Sizes(demands)) <= Budget(budget)
    ensures result[i] == demands[i].size
       <==> ShownFrom(demands, i) || demands[i].size <= Budget(budget) - Cost(demands, Sizes(demands))
  {
    hide Order, Shares, Cost, ShownFrom, Copies;
    var j := ShareAt(demands, budget, result, i);
    TotalInPlace(demands);
    FullWhenFits(BySize(demands), Budget(budget), j);
    ShownFromPlace(demands, i, j);
  }

  /**
   * Every entry gets its full size if and only if the total demand fits and every entry behind the last shown one is no
   * larger than what the total demand leaves over.
   */
  lemma AllFullExactly(demands: seq<Demand>, budget: int, result: seq<nat>)
    requires Allocated(demands, budget, result)
    ensures (forall i :: 0 <= i < |demands| ==> result[i] == demands[i].size)
       <==> && Cost(demands, Sizes(demands)) <= Budget(budget)
            && forall i :: 0 <= i < |demands| && !ShownFrom(demands, i) ==>
                 demands[i].size <= Budget(budget) - Cost(demands, Sizes(demands))
  {
    hide Cost, ShownFrom, Order, Shares;
    FullExactlyWhenFits(demands, budget, result);
    if Cost(demands, Sizes(demands)) <= Budget(budget) {
      forall i | 0 <= i < |demands|
        ensures result[i] == demands[i].size
           <==> ShownFrom(demands, i) || demands[i].size <= Budget(budget) - Cost(demands, Sizes(demands))
      {
        EntryFullExactly(demands, budget, result, i);
      }
    }
  }

  /** In any case every shown entry gets its size or the equal part of the budget, rounded down. */
  lemma EqualPartGuaranteed(demands: seq<Demand>, budget: int, result: seq<nat>)
    requires Allocated(demands, budget, result) && Sum(CopyCounts(demands)) >= 1
    ensures forall i :: 0 <= i < |demands| && demands[i].copies >= 1 ==>
              result[i] >= Min(demands[i].size, Budget(budget) / Sum(CopyCounts(demands)))
  {
    hide Shares, Order;
    var total := Sum(CopyCounts(demands));
    var level := Budget(budget) / total;
    DivideFits(Budget(budget), total);
    CappedCosts(demands, level);
    AllocationReachesLevel(demands, budget, result, level);
  }

  lemma {:induction false} CappedCosts(demands: seq<Demand>, level: nat)
    ensures Cost(demands, Capped(demands, level)) <= level * Sum(CopyCounts(demands))
  {
    if demands != [] {
      var front, last := demands[..|demands| - 1], demands[|demands| - 1];
      CappedCosts(front, level);
      var costs, counts := Costs(demands, Capped(demands, level)), CopyCounts(demands);
      assert costs[..|demands| - 1] == Costs(front, Capped(front, level));
      assert counts[..|demands| - 1] == CopyCounts(front);
      MulMono(Min(last.size, level), level, last.copies);
      Distribute(Sum(CopyCounts(front)), last.copies, level);
    }
  }

  /** If any shown entry is cut short, less than one unit per copy of the budget is left over. */
  lemma CutMeansSpent(demands: seq<Demand>, budget: int, result: seq<nat>, i: nat)
    requires Allocated(demands, budget, result) && i < |demands|
    requires demands[i].copies >= 1 && result[i] < demands[i].size
    ensures Budget(budget) - Cost(demands, result) < Sum(CopyCounts(demands))
  {
    hide Shares, Spent, Order, Copies;
    var sorted := BySize(demands);
    var j := ShareAt(demands, budget, result, i);
    ShortageSpendsAll(sorted, Budget(budget), j);
    CostBySize(demands, result, Shares(sorted, Budget(budget)));
    CopiesInPlace(demands);
  }

  lemma CopiesInPlace(demands: seq<Demand>)
    ensures Copies(BySize(demands)) == Sum(CopyCounts(demands))
  {
    hide Order, Copies, Spent, BySize;
    var ones := seq(|demands|, _ => 1);
    CopiesAreSpent(BySize(demands), ones);
    CostBySize(demands, ones, ones);
    assert Costs(demands, ones) == CopyCounts(demands);
  }

  /** A larger shown entry never gets less than a smaller one, wherever they stand. */
  lemma LargerGetsNoLess(demands: seq<Demand>, budget: int, result: seq<nat>, a: nat, b: nat)
    requires Allocated(demands, budget, result) && a < |demands| && b < |demands|
    requires demands[a].size < demands[b].size && demands[b].copies >= 1
    ensures result[a] <= result[b]
  {
    hide Shares, Order;
    var j := ShareAt(demands, budget, result, a);
    var k := ShareAt(demands, budget, result, b);
    SharesAscend(BySize(demands), Budget(budget), j, k);
  }

  /** An entry that is never shown can be denied its size although a demand of nothing fits any budget. */
  lemma UnshownEntryCut(result: seq<nat>)
    requires Allocated([Demand(10, 0)], 5, result)
    ensures Cost([Demand(10, 0)], Sizes([Demand(10, 0)])) == 0 && result == [5]
  {
    var demands := [Demand(10, 0)];
    var j := ShareAt(demands, 5, result, 0);
    UnshownShare(BySize(demands));
    hide Order, BySize, Shares;
    assert Costs(demands, Sizes(demands)) == [0];
  }

  lemma UnshownShare(demands: seq<Demand>)
    requires |demands| == 1 && demands[0] == Demand(10, 0)
    ensures Shares(demands, 5)[0] == 5
  {
    assert demands[1..] == [] && Copies(demands) == 0;
  }
}
