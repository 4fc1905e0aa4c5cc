/** Sharing a bounded budget fairly: short entries return what they do not use to longer ones. */
module DiagnosticBudget {

  /** An entry that wants `size` units of text and shows it `copies` times. */
  datatype Demand = Demand(size: nat, copies: nat)

  function Min(a: nat, b: nat): nat {
    if a < b then a else b
  }

  function Max(a: int, b: int): int {
    if a < b then b else a
  }

  // ------------------------------------------------------------- filling entries from the smallest up

  function Copies(demands: seq<Demand>): nat {
    if demands == [] then 0 else demands[0].copies + Copies(demands[1..])
  }

  function Share(demands: seq<Demand>, remaining: nat): nat
    requires demands != []
  {
    Min(demands[0].size, remaining / Max(1, Copies(demands)))
  }

  /** Shares in the given order; each takes an equal part of what is left, or its size if that is less. */
  function Shares(demands: seq<Demand>, remaining: nat): (shares: seq<nat>)
    ensures |shares| == |demands|
  {
    if demands == [] then []
    else
      var share := Share(demands, remaining);
      ShareFits(demands, remaining);
      [share] + Shares(demands[1..], remaining - share * demands[0].copies)
  }

  /** What the shares cost, counting copies. */
  function Spent(demands: seq<Demand>, shares: seq<nat>): nat
    requires |shares| == |demands|
  {
    if demands == [] then 0 else shares[0] * demands[0].copies + Spent(demands[1..], shares[1..])
  }

  /** What the entries would cost if none could show more than `level`. */
  function DemandUpTo(demands: seq<Demand>, level: nat): nat {
    if demands == [] then 0 else Min(demands[0].size, level) * demands[0].copies + DemandUpTo(demands[1..], level)
  }

  function TotalDemand(demands: seq<Demand>): nat {
    if demands == [] then 0 else demands[0].size * demands[0].copies + TotalDemand(demands[1..])
  }

  ghost predicate Sorted(demands: seq<Demand>) {
    forall i, j :: 0 <= i < j < |demands| ==> demands[i].size <= demands[j].size
  }

  // ------------------------------------------------------------- arithmetic

  lemma DivideFits(total: nat, parts: nat)
    requires parts >= 1
    ensures total / parts * parts <= total < total / parts * parts + parts
  {
  }

  lemma MulMono(a: nat, b: nat, c: nat)
    requires a <= b
    ensures a * c <= b * c
  {
  }

  lemma DivideAtLeast(total: nat, parts: nat, level: nat)
    requires parts >= 1 && level * parts <= total
    ensures total / parts >= level
  {
    var q := total / parts;
    DivideFits(total, parts);
    Distribute(q, 1, parts);
    if q + 1 <= level {
      MulMono(q + 1, level, parts);
    }
  }

  lemma Distribute(a: nat, b: nat, c: nat)
    ensures (a + b) * c == a * c + b * c
    ensures c * (a + b) == c * a + c * b
  {
  }

  lemma ShareFits(demands: seq<Demand>, remaining: nat)
    requires demands != []
    ensures Share(demands, remaining) * Copies(demands) <= remaining
    ensures Share(demands, remaining) * demands[0].copies <= remaining
  {
    var own, others := demands[0].copies, Copies(demands[1..]);
    var share := Share(demands, remaining);
    assert Copies(demands) == own + others;
    hide Copies, Share;
    Distribute(own, others, share);
    EqualPart(demands, remaining);
  }

  lemma EqualPart(demands: seq<Demand>, remaining: nat)
    requires demands != []
    ensures Share(demands, remaining) * Copies(demands) <= remaining
    ensures Share(demands, remaining) <= demands[0].size
    ensures Share(demands, remaining) < demands[0].size && Copies(demands) >= 1 ==>
              remaining < Share(demands, remaining) * Copies(demands) + Copies(demands)
    ensures Share(demands, remaining) < demands[0].size && Copies(demands) >= 1 ==>
              Share(demands, remaining) == remaining / Copies(demands)
  {
    var share, copies := Share(demands, remaining), Copies(demands);
    hide Copies;
    if copies >= 1 {
      DivideFits(remaining, copies);
      MulMono(share, remaining / copies, copies);
    }
  }

  /** The first entry taken off: what it gets, what is left, and how the totals split. */
  ghost predicate FirstServed(demands: seq<Demand>, remaining: nat, rest: seq<Demand>, left: nat, share: nat) {
    && demands != [] && rest == demands[1..] && share <= demands[0].size
    && left + share * demands[0].copies == remaining
    && Copies(demands) == demands[0].copies + Copies(rest)
    && share * Copies(rest) <= left
    && (share < demands[0].size && Copies(demands) >= 1 ==> left < share * Copies(rest) + Copies(demands))
    && Shares(demands, remaining) == [share] + Shares(rest, left)
    && Spent(demands, Shares(demands, remaining)) == share * demands[0].copies + Spent(rest, Shares(rest, left))
  }

  lemma ServeFirst(demands: seq<Demand>, remaining: nat) returns (rest: seq<Demand>, left: nat, share: nat)
    requires demands != []
    ensures share == Share(demands, remaining) && FirstServed(demands, remaining, rest, left, share)
  {
    rest, share := demands[1..], Share(demands, remaining);
    ShareFits(demands, remaining);
    left := remaining - share * demands[0].copies;
    EqualPart(demands, remaining);
    Distribute(demands[0].copies, Copies(rest), share);
    assert Shares(demands, remaining) == [share] + Shares(rest, left);
    assert ([share] + Shares(rest, left))[1..] == Shares(rest, left);
    hide Share, Shares;
  }

  // ------------------------------------------------------------- properties of the filling

  lemma {:induction false} SpendsWithin(demands: seq<Demand>, remaining: nat)
    ensures Spent(demands, Shares(demands, remaining)) <= remaining
    ensures forall i :: 0 <= i < |demands| ==> Shares(demands, remaining)[i] <= demands[i].size
  {
    if demands != [] {
      var rest, left, share := ServeFirst(demands, remaining);
      SpendsWithin(rest, left);
      hide Shares, Spent;
    }
  }

  /** When the smallest size is at least `level`, demand up to `level` costs `level` a copy. */
  lemma {:induction false} DemandAtLevel(demands: seq<Demand>, low: nat, level: nat)
    requires forall i :: 0 <= i < |demands| ==> low <= Min(demands[i].size, level)
    ensures low * Copies(demands) <= DemandUpTo(demands, level)
  {
    if demands != [] {
      DemandAtLevel(demands[1..], low, level);
      MulMono(low, Min(demands[0].size, level), demands[0].copies);
      assert low * (demands[0].copies + Copies(demands[1..])) == low * demands[0].copies + low * Copies(demands[1..]);
    }
  }

  lemma {:induction false} DemandBelowLevel(demands: seq<Demand>, level: nat)
    ensures DemandUpTo(demands, level) <= level * Copies(demands)
  {
    if demands != [] {
      DemandBelowLevel(demands[1..], level);
      MulMono(Min(demands[0].size, level), level, demands[0].copies);
      Distribute(demands[0].copies, Copies(demands[1..]), level);
    }
  }

  /** If every entry could have `level` (or its size) within the budget, every shown entry gets at least that. */
  lemma {:induction false} LevelGuaranteed(demands: seq<Demand>, remaining: nat, level: nat)
    requires Sorted(demands) && DemandUpTo(demands, level) <= remaining
    ensures forall i :: 0 <= i < |demands| && demands[i].copies >= 1 ==>
              Shares(demands, remaining)[i] >= Min(demands[i].size, level)
  {
    if demands != [] && Copies(demands) >= 1 {
      hide Copies, Shares, Spent, Share;
      var low, own := Min(demands[0].size, level), demands[0].copies;
      var rest, left, share := ServeFirst(demands, remaining);
      DemandAtLevel(demands, low, level);
      ShareAtLeast(demands, remaining, low);
      if share > low {
        // The level was the smaller bound, and the equal part was above it.
        DemandBelowLevel(rest, level);
        MulMono(level, share, Copies(rest));
      }
      LevelGuaranteed(rest, left, level);
    } else if demands != [] {
      NoCopies(demands);
    }
  }

  lemma ShareAtLeast(demands: seq<Demand>, remaining: nat, low: nat)
    requires demands != [] && Copies(demands) >= 1
    requires low <= demands[0].size && low * Copies(demands) <= remaining
    ensures Share(demands, remaining) >= low
  {
    hide Copies;
    DivideAtLeast(remaining, Copies(demands), low);
  }

  lemma {:induction false} NoCopies(demands: seq<Demand>)
    requires Copies(demands) == 0
    ensures forall i :: 0 <= i < |demands| ==> demands[i].copies == 0
  {
    if demands != [] {
      NoCopies(demands[1..]);
    }
  }

  /** After a shortage at `level`, what is never spent stays within the slack. */
  lemma {:induction false} LeftoverBounded(demands: seq<Demand>, remaining: nat, level: nat, slack: nat)
    requires Sorted(demands) && forall i :: 0 <= i < |demands| ==> demands[i].size > level
    requires remaining <= level * Copies(demands) + slack && Copies(demands) <= slack + 1
    ensures remaining - Spent(demands, Shares(demands, remaining)) <= slack
  {
    if demands != [] {
      var rest, left, share := ServeFirst(demands, remaining);
      hide Copies, Shares, Spent, Share;
      var own := demands[0].copies;
      Distribute(own, Copies(rest), level);
      if Copies(demands) == 0 {
        assert own == 0 && share * own == 0;
        LeftoverBounded(rest, left, level, slack);
      } else if share == demands[0].size {
        MulMono(level, share, own);
        LeftoverBounded(rest, left, level, slack);
      } else {
        LeftoverBounded(rest, left, share, Copies(demands) - 1);
      }
    } else {
      assert Copies(demands) == 0 && level * 0 == 0;
    }
  }

  /** Nothing substantial is wasted: if any shown entry is cut, less than one unit a copy stays unspent. */
  lemma {:induction false} ShortageSpendsAll(demands: seq<Demand>, remaining: nat, i: nat)
    requires Sorted(demands) && i < |demands| && demands[i].copies >= 1
    requires Shares(demands, remaining)[i] < demands[i].size
    ensures remaining - Spent(demands, Shares(demands, remaining)) < Copies(demands)
  {
    CopiesAtLeast(demands, i);
    var rest, left, share := ServeFirst(demands, remaining);
    hide Copies, Shares, Spent, Share;
    if share < demands[0].size {
      LeftoverBounded(rest, left, share, Copies(demands) - 1);
    } else {
      ShortageSpendsAll(rest, left, i - 1);
    }
  }

  lemma {:induction false} CopiesAtLeast(demands: seq<Demand>, i: nat)
    requires i < |demands|
    ensures Copies(demands) >= demands[i].copies
  {
    if i > 0 {
      CopiesAtLeast(demands[1..], i - 1);
    }
  }

  /** A larger entry never gets less than a smaller one. */
  lemma {:induction false} SharesAscend(demands: seq<Demand>, remaining: nat, i: nat, j: nat)
    requires Sorted(demands) && i <= j < |demands| && demands[j].copies >= 1
    ensures Shares(demands, remaining)[i] <= Shares(demands, remaining)[j]
  {
    var rest, left, share := ServeFirst(demands, remaining);
    hide Copies, Shares, Spent, Share;
    if i > 0 {
      SharesAscend(rest, left, i - 1, j - 1);
    } else if j > 0 {
      CopiesAtLeast(rest, j - 1);
      ShareAtLeast(rest, left, share);
      var _, _, next := ServeFirst(rest, left);
      SharesAscend(rest, left, 0, j - 1);
    }
  }

  /** Sizes that ascend cost at least the smallest one per copy. */
  lemma {:induction false} TotalAtLeast(demands: seq<Demand>, low: nat)
    requires forall i :: 0 <= i < |demands| ==> low <= demands[i].size
    ensures low * Copies(demands) <= TotalDemand(demands)
  {
    if demands != [] {
      TotalAtLeast(demands[1..], low);
      MulMono(low, demands[0].size, demands[0].copies);
      Distribute(demands[0].copies, Copies(demands[1..]), low);
    }
  }

  lemma {:induction false} NothingDemanded(demands: seq<Demand>)
    requires Copies(demands) == 0
    ensures TotalDemand(demands) == 0
  {
    if demands != [] {
      NothingDemanded(demands[1..]);
    }
  }

  /**
   * When the total demand fits, an entry gets its full size exactly when some entry from its place on is shown, or when
   * what the total leaves over is at least its size.
   */
  lemma {:induction false} FullWhenFits(demands: seq<Demand>, remaining: nat, i: nat)
    requires Sorted(demands) && TotalDemand(demands) <= remaining && i < |demands|
    ensures Shares(demands, remaining)[i] == demands[i].size
       <==> Copies(demands[i..]) >= 1 || demands[i].size <= remaining - TotalDemand(demands)
  {
    var rest, left, share := ServeFirst(demands, remaining);
    assert TotalDemand(demands) == demands[0].size * demands[0].copies + TotalDemand(rest);
    if Copies(demands) == 0 {
      NothingDemanded(demands);
      NothingDemanded(rest);
      assert share == Min(demands[0].size, remaining);
      assert left == remaining;
    } else {
      TotalAtLeast(demands, demands[0].size);
      ShareAtLeast(demands, remaining, demands[0].size);
      assert share == demands[0].size;
    }
    hide Shares, Share, TotalDemand;
    if i == 0 {
      assert demands[0..] == demands;
    } else {
      assert demands[i..] == rest[i - 1..];
      FullWhenFits(rest, left, i - 1);
    }
  }

  /** Some entry of the sequence is shown exactly when its copies do not add up to nothing. */
  lemma {:induction false} SomeShown(demands: seq<Demand>)
    ensures Copies(demands) >= 1 <==> exists k :: 0 <= k < |demands| && demands[k].copies >= 1
  {
    if demands != [] {
      SomeShown(demands[1..]);
      if Copies(demands[1..]) >= 1 {
        var k :| 0 <= k < |demands[1..]| && demands[1..][k].copies >= 1;
        assert demands[k + 1].copies >= 1;
      } else if k :| 0 <= k < |demands| && demands[k].copies >= 1 {
        if k > 0 {
          assert demands[1..][k - 1].copies >= 1;
        }
      }
    }
  }
}
