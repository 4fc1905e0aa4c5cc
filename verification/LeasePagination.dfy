/** Listing every lease of a tenant page by page, against a server that need not be honest. */
module LeasePagination {
  import opened Options

  const LEASES_PAGE_LIMIT: nat := 100

  datatype Lease = Lease(uuid: string, details: string)

  /** A page and its reported total, `None` when the total is not an integer of the expected type. */
  datatype Page = Page(leases: seq<Lease>, total: Option<int>)

  /** What the n-th request for the leases from an offset on returns; `None` when the request itself fails. */
  type Server = (nat, nat) -> Option<Page>

  datatype Error = RequestFailed | InvalidTotal | TotalChanged | EndedEarly | DuplicateLease | MoreThanTotal

  // ------------------------------------------------------------- what the answers add up to

  function PageOf(answer: Option<Page>): Page {
    answer.GetOr(Page([], None))
  }

  /** The leases of the first `n` answers, each requested at the offset reached by those before. */
  function Fetched(server: Server, n: nat): seq<Lease>
    decreases n, 0
  {
    if n == 0 then [] else Fetched(server, n - 1) + PageOf(Answer(server, n - 1)).leases
  }

  function Answer(server: Server, n: nat): Option<Page>
    decreases n, 1
  {
    server(n, |Fetched(server, n)|)
  }

  predicate Distinct(leases: seq<Lease>) {
    forall i, j :: 0 <= i < j < |leases| ==> leases[i].uuid != leases[j].uuid
  }

  /** How the n-th answer ends the listing, if it does. */
  function Ending(server: Server, n: nat): Option<Result<seq<Lease>, Error>> {
    var answer, before, after := Answer(server, n), Fetched(server, n), Fetched(server, n + 1);
    if answer.None? then Some(Err(RequestFailed))
    else if answer.value.total.None? || answer.value.total.value < 0 then Some(Err(InvalidTotal))
    else
      var total := answer.value.total.value;
      if n > 0 && PageOf(Answer(server, n - 1)).total != Some(total) then Some(Err(TotalChanged))
      else if answer.value.leases == [] then
        if |before| < total then Some(Err(EndedEarly)) else Some(Ok(before))
      else if !Distinct(after) then Some(Err(DuplicateLease))
      else if 0 < total < |after| then Some(Err(MoreThanTotal))
      else if 0 < total == |after| then Some(Ok(after))
      else None
  }

  /** The listing ends at the n-th answer, with `r`. */
  ghost predicate EndsAt(server: Server, n: nat, r: Result<seq<Lease>, Error>) {
    (forall k: nat :: k < n ==> Ending(server, k).None?) && Ending(server, n) == Some(r)
  }

  /** Every lease the server can return belongs to a finite set of identifiers. */
  ghost predicate Within(server: Server, uuids: set<string>) {
    forall n: nat, offset: nat, i: nat ::
      i < |PageOf(server(n, offset)).leases| ==> PageOf(server(n, offset)).leases[i].uuid in uuids
  }

  ghost function Uuids(leases: seq<Lease>): set<string> {
    set i | 0 <= i < |leases| :: leases[i].uuid
  }

  // ------------------------------------------------------------- the loop

  /** Against any server over finitely many leases the loop stops, where and as the answers say. */
  method GetLeasesByTenant(server: Server, ghost uuids: set<string>) returns (r: Result<seq<Lease>, Error>)
    requires Within(server, uuids)
    ensures exists n: nat :: EndsAt(server, n, r)
  {
    var leases: seq<Lease> := [];
    var seen: set<string> := {};
    var offset: nat := 0;
    var expectedTotal: Option<int> := None;
    var requests: nat := 0;
    while true
      invariant leases == Fetched(server, requests) && offset == |leases|
      invariant seen == Uuids(leases) && seen <= uuids && Distinct(leases)
      invariant requests == 0 <==> expectedTotal == None
      invariant requests > 0 ==> expectedTotal == PageOf(Answer(server, requests - 1)).total
      invariant forall k: nat :: k < requests ==> Ending(server, k).None?
      decreases uuids - seen
    {
      var answer := server(requests, offset);
      assert answer == Answer(server, requests);
      if answer.None? {
        r := Err(RequestFailed);
        break;
      }
      var page := answer.value;
      if page.total.None? || page.total.value < 0 {
        r := Err(InvalidTotal);
        break;
      }
      var total := page.total.value;
      if expectedTotal.Some? && total != expectedTotal.value {
        r := Err(TotalChanged);
        break;
      }
      expectedTotal := Some(total);
      if page.leases == [] {
        r := if offset < total then Err(EndedEarly) else Ok(leases);
        break;
      }
      var repeated: bool;
      AnswerGrows(server, requests, uuids);
      repeated, leases, seen := TakePage(page.leases, leases, seen);
      if repeated {
        r := Err(DuplicateLease);
        break;
      }
      offset := offset + |page.leases|;
      requests := requests + 1;
      assert leases == Fetched(server, requests);
      if total > 0 {
        if offset > total {
          r := Err(MoreThanTotal);
          assert EndsAt(server, requests - 1, r);
          return;
        }
        if offset == total {
          r := Ok(leases);
          assert EndsAt(server, requests - 1, r);
          return;
        }
      }
    }
    assert EndsAt(server, requests, r);
  }

  /** Takes the leases of a page one by one until one was seen before. */
  method TakePage(page: seq<Lease>, before: seq<Lease>, seenBefore: set<string>)
      returns (repeated: bool, leases: seq<Lease>, seen: set<string>)
    requires seenBefore == Uuids(before) && Distinct(before)
    ensures repeated <==> !Distinct(before + page)
    ensures !repeated ==> leases == before + page && seen == Uuids(leases)
  {
    leases, seen := before, seenBefore;
    for i := 0 to |page|
      invariant leases == before + page[..i] && seen == Uuids(leases) && Distinct(leases)
    {
      if page[i].uuid in seen {
        var k :| 0 <= k < |leases| && leases[k].uuid == page[i].uuid;
        assert (before + page)[k] == leases[k] && (before + page)[|leases|] == page[i];
        return true, leases, seen;
      }
      seen := seen + {page[i].uuid};
      leases := leases + [page[i]];
      assert before + page[..i + 1] == before + page[..i] + [page[i]];
      UuidsGrow(before + page[..i], page[i]);
    }
    assert page[..|page|] == page;
    return false, leases, seen;
  }

  lemma UuidsGrow(leases: seq<Lease>, lease: Lease)
    ensures Uuids(leases + [lease]) == Uuids(leases) + {lease.uuid}
  {
    var after := leases + [lease];
    assert after[|leases|] == lease;
    forall x ensures x in Uuids(after) <==> x in Uuids(leases) + {lease.uuid} {
      if x in Uuids(leases) {
        var i :| 0 <= i < |leases| && leases[i].uuid == x;
        assert after[i].uuid == x;
      }
    }
  }

  /** A new page without repetition adds identifiers, all of them among the server's own. */
  lemma AnswerGrows(server: Server, n: nat, uuids: set<string>)
    requires Within(server, uuids) && Uuids(Fetched(server, n)) <= uuids && Answer(server, n).Some?
    ensures Uuids(Fetched(server, n + 1)) <= uuids
    ensures Answer(server, n).value.leases != [] && Distinct(Fetched(server, n + 1)) ==>
      Uuids(Fetched(server, n)) < Uuids(Fetched(server, n + 1))
  {
    var before, page, after := Fetched(server, n), Answer(server, n).value.leases, Fetched(server, n + 1);
    assert after == before + page;
    forall x | x in Uuids(after) ensures x in uuids {
      var i :| 0 <= i < |after| && after[i].uuid == x;
      if i < |before| {
        assert before[i].uuid in Uuids(before);
      } else {
        var k: nat := i - |before|;
        assert PageOf(server(n, |before|)).leases[k].uuid in uuids;
      }
    }
    forall x | x in Uuids(before) ensures x in Uuids(after) {
      var i :| 0 <= i < |before| && before[i].uuid == x;
      assert after[i].uuid == x;
    }
    if page != [] && Distinct(after) {
      var x := page[0].uuid;
      assert after[|before|].uuid == x;
      assert x !in Uuids(before) by {
        assert forall i :: 0 <= i < |before| ==> after[i] == before[i];
      }
    }
  }

  // ------------------------------------------------------------- what a returned list means

  lemma {:induction false} GoingOn(server: Server, n: nat)
    requires forall k: nat :: k < n ==> Ending(server, k).None?
    ensures Distinct(Fetched(server, n))
    ensures n > 0 ==> PageOf(Answer(server, n - 1)).total.Some?
    ensures n > 0 ==> var total := PageOf(Answer(server, n - 1)).total.value; total > 0 ==> |Fetched(server, n)| < total
    ensures forall k: nat :: k < n ==> PageOf(Answer(server, k)).total == PageOf(Answer(server, 0)).total
  {
    if n > 0 {
      GoingOn(server, n - 1);
      assert Ending(server, n - 1).None?;
    }
  }

  /** A returned list has no duplicates, comes from answers that agreed on the total, and has as many leases as that. */
  lemma {:induction false} ReturnedListIsWhole(server: Server, n: nat, leases: seq<Lease>)
    requires EndsAt(server, n, Ok(leases))
    ensures Distinct(leases) && leases == Fetched(server, n + 1)
    ensures forall k: nat :: k <= n ==> Answer(server, k).Some? && Answer(server, k).value.total.Some?
    ensures forall k: nat :: k <= n ==> PageOf(Answer(server, k)).total == PageOf(Answer(server, 0)).total
    ensures var total := PageOf(Answer(server, 0)).total.value; total > 0 ==> |leases| == total
    ensures PageOf(Answer(server, 0)).total.value == 0 ==> PageOf(Answer(server, n)).leases == []
  {
    GoingOn(server, n);
    forall k: nat | k < n ensures Answer(server, k).Some? && Answer(server, k).value.total.Some? {
      assert Ending(server, k).None?;
    }
  }

  ghost predicate Repeats(leases: seq<Lease>) {
    exists i, j :: 0 <= i < j < |leases| && leases[i].uuid == leases[j].uuid
  }

  /** What a failed listing claims about the answers it got. */
  ghost predicate Cause(server: Server, n: nat, error: Error) {
    match error
    case RequestFailed => Answer(server, n) == None
    case InvalidTotal =>
      Answer(server, n).Some? && (Answer(server, n).value.total == None || Answer(server, n).value.total.value < 0)
    case TotalChanged =>
      Answer(server, n).Some? && n > 0 && PageOf(Answer(server, n)).total != PageOf(Answer(server, n - 1)).total
    case EndedEarly =>
      && PageOf(Answer(server, n)).leases == [] && PageOf(Answer(server, n)).total.Some?
      && |Fetched(server, n)| < PageOf(Answer(server, n)).total.value
    case DuplicateLease => Repeats(Fetched(server, n + 1))
    case MoreThanTotal =>
      && PageOf(Answer(server, n)).total.Some? && PageOf(Answer(server, n)).total.value > 0
      && |Fetched(server, n + 1)| > PageOf(Answer(server, n)).total.value
  }

  /** A listing that fails says why, and it is so of the last answer. */
  lemma FailureIsTrue(server: Server, n: nat, error: Error)
    requires EndsAt(server, n, Err(error))
    ensures Cause(server, n, error)
  {
    hide Fetched;
  }

  // ------------------------------------------------------------- an honest server

  function Least(a: nat, b: nat): nat {
    if a <= b then a else b
  }

  /** Pages are cut from the true list; the server may cap their length, differently each time. */
  ghost predicate Honest(server: Server, all: seq<Lease>, cap: nat -> nat, reportsTotal: bool) {
    && Distinct(all) && (forall n: nat :: cap(n) >= 1)
    && forall n: nat, offset: nat :: offset <= |all| ==>
        server(n, offset) == Some(Page(all[offset..offset + Least(|all| - offset, Least(LEASES_PAGE_LIMIT, cap(n)))],
                                       Some(if reportsTotal then |all| else 0)))
  }

  lemma {:induction false} HonestPrefix(server: Server, all: seq<Lease>, cap: nat -> nat, reportsTotal: bool, n: nat)
    requires Honest(server, all, cap, reportsTotal)
    ensures Fetched(server, n) <= all
    ensures Answer(server, n).Some? && Answer(server, n).value.total == Some(if reportsTotal then |all| else 0)
    ensures Answer(server, n).value.leases == [] <==> Fetched(server, n) == all
    ensures Fetched(server, n + 1) <= all
  {
    if n > 0 {
      HonestPrefix(server, all, cap, reportsTotal, n - 1);
    }
    var offset := |Fetched(server, n)|;
    var count := Least(|all| - offset, Least(LEASES_PAGE_LIMIT, cap(n)));
    assert server(n, offset) == Some(Page(all[offset..offset + count], Some(if reportsTotal then |all| else 0)));
    assert Fetched(server, n) == all[..offset];
    assert Fetched(server, n + 1) == all[..offset + count];
  }

  /** Against an honest server, with any page caps and with or without totals, the whole list comes back in order. */
  lemma HonestListIsReturned(server: Server, all: seq<Lease>, cap: nat -> nat, reportsTotal: bool, n: nat,
                             r: Result<seq<Lease>, Error>)
    requires Honest(server, all, cap, reportsTotal) && EndsAt(server, n, r)
    ensures r == Ok(all)
  {
    HonestPrefix(server, all, cap, reportsTotal, n);
    if n > 0 {
      HonestPrefix(server, all, cap, reportsTotal, n - 1);
    }
    var after := Fetched(server, n + 1);
    DistinctPrefix(after, all);
    assert |after| == |all| ==> after == all;
    assert PageOf(Answer(server, n)).leases == Answer(server, n).value.leases;
  }

  /** An honest server that reports its total is not asked again once all its leases are there. */
  lemma HonestListingStops(server: Server, all: seq<Lease>, cap: nat -> nat, n: nat, r: Result<seq<Lease>, Error>)
    requires Honest(server, all, cap, true) && EndsAt(server, n, r) && all != []
    ensures |Fetched(server, n)| < |all|
  {
    HonestPrefix(server, all, cap, true, n);
    if n > 0 {
      HonestPrefix(server, all, cap, true, n - 1);
      assert Ending(server, n - 1).None?;
      DistinctPrefix(Fetched(server, n), all);
    }
  }

  lemma DistinctPrefix(leases: seq<Lease>, all: seq<Lease>)
    requires leases <= all && Distinct(all)
    ensures Distinct(leases)
  {
  }

  /** The honest server is one over finitely many leases as far as it is asked, so the listing does end. */
  lemma HonestListingEnds(server: Server, all: seq<Lease>, cap: nat -> nat, reportsTotal: bool)
    requires Honest(server, all, cap, reportsTotal)
    ensures exists n: nat :: EndsAt(server, n, Ok(all))
  {
    var n := FirstEnding(server, all, cap, reportsTotal, 0);
    HonestListIsReturned(server, all, cap, reportsTotal, n, Ending(server, n).value);
  }

  lemma FirstEnding(server: Server, all: seq<Lease>, cap: nat -> nat, reportsTotal: bool, start: nat) returns (n: nat)
    requires Honest(server, all, cap, reportsTotal)
    requires forall k: nat :: k < start ==> Ending(server, k).None?
    ensures Ending(server, n).Some? && EndsAt(server, n, Ending(server, n).value)
    decreases |all| - |Fetched(server, start)|
  {
    HonestPrefix(server, all, cap, reportsTotal, start);
    if Ending(server, start).Some? {
      n := start;
    } else {
      n := FirstEnding(server, all, cap, reportsTotal, start + 1);
    }
  }
}
