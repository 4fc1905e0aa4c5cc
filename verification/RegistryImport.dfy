/** Importing leases that the chain knows and the registry does not, each under a fresh and valid name. */
module RegistryImport {
  import opened Options
  import opened AppNames
  import opened AppStatus

  datatype Lease = Lease(leaseUuid: string, providerUuid: string, createdAt: int, chainState: ChainState,
                         size: Option<string>, providerUrl: Option<string>, customDomains: Option<seq<CustomDomain>>)

  /** Lower-casing, and the collation order in which leases are imported. */
  datatype Locale = Locale(lower: string -> string, leq: (string, string) -> bool)

  ghost predicate TotalOrder(leq: (string, string) -> bool) {
    && (forall a, b :: leq(a, b) || leq(b, a))
    && (forall a, b :: leq(a, b) && leq(b, a) ==> a == b)
    && (forall a, b, c :: leq(a, b) && leq(b, c) ==> leq(a, c))
  }

  // ------------------------------------------------------------- names

  function OnlyNameChars(s: string): (r: string)
    ensures forall i :: 0 <= i < |r| ==> NameChar(r[i])
  {
    if s == "" then "" else (if NameChar(s[0]) then [s[0]] else "") + OnlyNameChars(s[1..])
  }

  function LastChars(s: string, n: nat): string {
    if |s| <= n then s else s[|s| - n..]
  }

  function BaseName(leaseUuid: string, lower: string -> string): (r: string)
    ensures ValidShape(r)
  {
    var suffix := LastChars(OnlyNameChars(lower(leaseUuid)), 24);
    var r := "app-" + (if suffix == "" then "lease" else suffix);
    assert r[0] == 'a' && r[1] == 'p' && r[2] == 'p' && r[3] == '-';
    assert forall i :: 4 <= i < |r| ==> NameChar(r[i]);
    r
  }

  function NamesOf(apps: seq<Entry>): set<string> {
    set i | 0 <= i < |apps| :: apps[i].name
  }

  function LeasesOf(apps: seq<Entry>): set<string> {
    set i | 0 <= i < |apps| :: apps[i].leaseUuid
  }

  // ------------------------------------------------------------- import

  function Insert(lease: Lease, sorted: seq<Lease>, leq: (string, string) -> bool): seq<Lease> {
    if sorted == [] || leq(lease.leaseUuid, sorted[0].leaseUuid) then [lease] + sorted
    else [sorted[0]] + Insert(lease, sorted[1..], leq)
  }

  function SortLeases(leases: seq<Lease>, leq: (string, string) -> bool): seq<Lease> {
    if leases == [] then [] else Insert(leases[0], SortLeases(leases[1..], leq), leq)
  }

  function NewEntry(lease: Lease, name: string): (e: Entry)
    ensures Derived(e) == e && e.leaseUuid == lease.leaseUuid && e.name == name
  {
    Entry(name, lease.leaseUuid,
          Details(lease.size.GetOr("unknown"), lease.providerUuid, lease.providerUrl.GetOr(""), lease.createdAt, None,
                  None, None),
          None, None, DeriveStatus(Some(lease.chainState), Some(Unconfirmed), Deploying), Some(lease.chainState),
          Some(Unconfirmed), lease.customDomains)
  }

  function KeepApps(apps: seq<Entry>, payloadless: set<string>): (kept: seq<Entry>)
    ensures |kept| <= |apps|
    ensures forall e :: e in kept <==> e in apps && e.leaseUuid !in payloadless
  {
    if apps == [] then []
    else
      var last := apps[|apps| - 1];
      KeepApps(apps[..|apps| - 1], payloadless) + (if last.leaseUuid in payloadless then [] else [last])
  }

  /** One lease at a time, after the apps known so far. */
  function ImportEach(apps: seq<Entry>, leases: seq<Lease>, payloadless: set<string>,
                      lower: string -> string): seq<Entry> {
    if leases == [] then apps
    else
      var before := ImportEach(apps, leases[..|leases| - 1], payloadless, lower);
      var lease := leases[|leases| - 1];
      if lease.leaseUuid in LeasesOf(before) || lease.leaseUuid in payloadless then before
      else before + [NewEntry(lease, FreshName(BaseName(lease.leaseUuid, lower), NamesOf(before)))]
  }

  function Import(apps: seq<Entry>, leases: seq<Lease>, payloadless: set<string>, locale: Locale): seq<Entry> {
    ImportEach(KeepApps(apps, payloadless), SortLeases(leases, locale.leq), payloadless, locale.lower)
  }

  // ------------------------------------------------------------- what one import promises

  /** An entry made for a listed lease: without a provider verdict, and not for a lease without deployment. */
  ghost predicate FromLease(e: Entry, leases: seq<Lease>, payloadless: set<string>) {
    && e.provisionState == Some(Unconfirmed) && Derived(e) == e && e.leaseUuid !in payloadless
    && exists l :: l in leases && l.leaseUuid == e.leaseUuid && e.chainState == Some(l.chainState)
  }

  ghost predicate NewOnes(before: seq<Entry>, after: seq<Entry>) {
    && (forall i, j :: 0 <= i < j < |after| && j >= |before| ==> after[i].name != after[j].name)
    && (forall i, j :: 0 <= i < j < |after| && j >= |before| ==> after[i].leaseUuid != after[j].leaseUuid)
  }

  ghost predicate Covered(apps: seq<Entry>, leases: seq<Lease>, payloadless: set<string>) {
    forall l :: l in leases ==> l.leaseUuid in LeasesOf(apps) || l.leaseUuid in payloadless
  }

  /** What was there stays in front, unchanged; what was added is new, named afresh, and covers the listed leases. */
  ghost predicate Imported(before: seq<Entry>, after: seq<Entry>, leases: seq<Lease>, payloadless: set<string>) {
    && before <= after && NewOnes(before, after) && Covered(after, leases, payloadless)
    && forall i :: |before| <= i < |after| ==> FromLease(after[i], leases, payloadless)
  }

  lemma {:induction false} ImportsEach(apps: seq<Entry>, leases: seq<Lease>, payloadless: set<string>,
                                       lower: string -> string)
    ensures Imported(apps, ImportEach(apps, leases, payloadless, lower), leases, payloadless)
    ensures |ImportEach(apps, leases, payloadless, lower)| <= |apps| + |leases|
  {
    hide FreshName, BaseName, DeriveStatus, LeasesOf, NamesOf, NewEntry, Imported;
    if leases == [] {
      NothingImported(apps, payloadless);
    } else {
      var front, lease := leases[..|leases| - 1], leases[|leases| - 1];
      ImportsEach(apps, front, payloadless, lower);
      var before := ImportEach(apps, front, payloadless, lower);
      assert leases == front + [lease];
      ImportsOne(apps, before, front, lease, payloadless, FreshName(BaseName(lease.leaseUuid, lower), NamesOf(before)));
    }
  }

  lemma NothingImported(apps: seq<Entry>, payloadless: set<string>)
    ensures Imported(apps, apps, [], payloadless)
  {
  }

  lemma ImportsOne(apps: seq<Entry>, before: seq<Entry>, front: seq<Lease>, lease: Lease, payloadless: set<string>,
                   name: string)
    requires Imported(apps, before, front, payloadless) && name !in NamesOf(before)
    ensures var after := if lease.leaseUuid in LeasesOf(before) || lease.leaseUuid in payloadless then before
                         else before + [NewEntry(lease, name)];
            Imported(apps, after, front + [lease], payloadless)
  {
    hide DeriveStatus;
    hide NewEntry, LeasesOf, NamesOf;
    var leases := front + [lease];
    assert lease in leases;
    forall i | |apps| <= i < |before| ensures FromLease(before[i], leases, payloadless) {
      StillFrom(before[i], front, lease, payloadless);
    }
    if lease.leaseUuid !in LeasesOf(before) && lease.leaseUuid !in payloadless {
      var e := NewEntry(lease, name);
      NewEntryState(lease, name);
      AppendNew(apps, before, e);
      AppendedSets(before, e);
    }
  }

  lemma AppendNew(apps: seq<Entry>, before: seq<Entry>, e: Entry)
    requires NewOnes(apps, before) && e.name !in NamesOf(before) && e.leaseUuid !in LeasesOf(before)
    ensures NewOnes(apps, before + [e])
  {
    hide NamesOf, LeasesOf;
    forall i | 0 <= i < |before| ensures before[i].name != e.name && before[i].leaseUuid != e.leaseUuid {
      Listed(before, i);
    }
  }

  lemma Listed(apps: seq<Entry>, i: nat)
    requires i < |apps|
    ensures apps[i].name in NamesOf(apps) && apps[i].leaseUuid in LeasesOf(apps)
  {
  }

  lemma StillFrom(e: Entry, front: seq<Lease>, lease: Lease, payloadless: set<string>)
    requires FromLease(e, front, payloadless)
    ensures FromLease(e, front + [lease], payloadless)
  {
    var l :| l in front && l.leaseUuid == e.leaseUuid && e.chainState == Some(l.chainState);
    assert l in front + [lease];
  }

  lemma NewEntryState(lease: Lease, name: string)
    ensures NewEntry(lease, name).provisionState == Some(Unconfirmed)
    ensures NewEntry(lease, name).chainState == Some(lease.chainState)
  {
  }

  /** Import keeps the registry consistent, keeps every other entry, and adds every missing lease. */
  lemma {:induction false} ImportKeepsConsistent(apps: seq<Entry>, leases: seq<Lease>, payloadless: set<string>,
                                                 locale: Locale)
    requires Consistent(apps)
    ensures var after := Import(apps, leases, payloadless, locale);
            && Consistent(after)
            && Imported(KeepApps(apps, payloadless), after, leases, payloadless)
  {
    hide FreshName, BaseName, DeriveStatus;
    var kept := KeepApps(apps, payloadless);
    var sorted := SortLeases(leases, locale.leq);
    KeptConsistent(apps, payloadless);
    SortHasSame(leases, locale.leq);
    ImportsEach(kept, sorted, payloadless, locale.lower);
    var after := Import(apps, leases, payloadless, locale);
    assert forall i :: 0 <= i < |kept| ==> after[i] == kept[i];
  }

  lemma {:induction false} KeptConsistent(apps: seq<Entry>, payloadless: set<string>)
    requires Consistent(apps)
    ensures Consistent(KeepApps(apps, payloadless))
  {
    hide DeriveStatus;
    if apps != [] {
      var front, last := apps[..|apps| - 1], apps[|apps| - 1];
      KeptConsistent(front, payloadless);
      var kept := KeepApps(front, payloadless);
      forall i | 0 <= i < |kept| ensures kept[i].leaseUuid != last.leaseUuid {
        assert kept[i] in front;
      }
      assert KeepApps(apps, payloadless) == kept || KeepApps(apps, payloadless) == kept + [last];
      assert Derived(last) == last;
      hide KeepApps;
    }
  }

  lemma {:induction false} InsertHasSame(lease: Lease, sorted: seq<Lease>, leq: (string, string) -> bool)
    ensures |Insert(lease, sorted, leq)| == |sorted| + 1
    ensures forall l :: l in Insert(lease, sorted, leq) <==> l == lease || l in sorted
  {
    if sorted != [] && !leq(lease.leaseUuid, sorted[0].leaseUuid) {
      InsertHasSame(lease, sorted[1..], leq);
      assert sorted == [sorted[0]] + sorted[1..];
    }
  }

  lemma {:induction false} SortHasSame(leases: seq<Lease>, leq: (string, string) -> bool)
    ensures |SortLeases(leases, leq)| == |leases|
    ensures forall l :: l in SortLeases(leases, leq) <==> l in leases
  {
    if leases != [] {
      SortHasSame(leases[1..], leq);
      InsertHasSame(leases[0], SortLeases(leases[1..], leq), leq);
      assert leases == [leases[0]] + leases[1..];
    }
  }

  // ------------------------------------------------------------- names, idempotence, order

  lemma {:induction false} NameCount(apps: seq<Entry>)
    ensures |NamesOf(apps)| <= |apps|
  {
    if apps == [] {
      assert NamesOf(apps) == {};
    } else {
      var front, last := apps[..|apps| - 1], apps[|apps| - 1];
      NameCount(front);
      assert NamesOf(apps) <= NamesOf(front) + {last.name} by {
        forall n | n in NamesOf(apps) ensures n in NamesOf(front) + {last.name} {
          var i :| 0 <= i < |apps| && apps[i].name == n;
          if i < |front| {
            assert front[i].name == n;
          }
        }
      }
      SubsetSize(NamesOf(apps), NamesOf(front) + {last.name});
    }
  }

  /** Every imported app gets a name of the accepted shape, for any number of entries an array can hold. */
  lemma {:induction false} ImportedNamesValid(apps: seq<Entry>, leases: seq<Lease>, payloadless: set<string>,
                                              lower: string -> string)
    requires |apps| + |leases| < MAX_ARRAY_LENGTH
    ensures var after := ImportEach(apps, leases, payloadless, lower);
            |after| >= |apps| && forall i :: |apps| <= i < |after| ==> ValidShape(after[i].name)
  {
    hide FreshName, BaseName, DeriveStatus, ValidShape, LeasesOf, NamesOf;
    if leases != [] {
      var front, lease := leases[..|leases| - 1], leases[|leases| - 1];
      ImportedNamesValid(apps, front, payloadless, lower);
      ImportsEach(apps, front, payloadless, lower);
      var before := ImportEach(apps, front, payloadless, lower);
      NameCount(before);
      FreshNameShape(BaseName(lease.leaseUuid, lower), NamesOf(before));
    }
  }

  lemma {:induction false} NothingNew(apps: seq<Entry>, leases: seq<Lease>, payloadless: set<string>,
                                      lower: string -> string)
    requires forall l :: l in leases ==> l.leaseUuid in LeasesOf(apps) || l.leaseUuid in payloadless
    ensures ImportEach(apps, leases, payloadless, lower) == apps
  {
    hide FreshName, BaseName, DeriveStatus;
    if leases != [] {
      var front := leases[..|leases| - 1];
      assert forall l :: l in front ==> l in leases;
      NothingNew(apps, front, payloadless, lower);
    }
  }

  lemma {:induction false} NothingForgotten(apps: seq<Entry>, payloadless: set<string>)
    requires forall i :: 0 <= i < |apps| ==> apps[i].leaseUuid !in payloadless
    ensures KeepApps(apps, payloadless) == apps
  {
    if apps != [] {
      var front, last := apps[..|apps| - 1], apps[|apps| - 1];
      NothingForgotten(front, payloadless);
      assert KeepApps(apps, payloadless) == front + [last] == apps;
    }
  }

  /** Importing the same leases again changes nothing. */
  lemma ImportIdempotent(apps: seq<Entry>, leases: seq<Lease>, payloadless: set<string>, locale: Locale)
    ensures var once := Import(apps, leases, payloadless, locale); Import(once, leases, payloadless, locale) == once
  {
    hide FreshName, BaseName, DeriveStatus;
    var kept := KeepApps(apps, payloadless);
    var sorted := SortLeases(leases, locale.leq);
    ImportsEach(kept, sorted, payloadless, locale.lower);
    var once := Import(apps, leases, payloadless, locale);
    forall i | 0 <= i < |once| ensures once[i].leaseUuid !in payloadless {
      if i < |kept| {
        assert once[i] == kept[i] && kept[i] in kept;
      }
    }
    NothingForgotten(once, payloadless);
    NothingNew(once, sorted, payloadless, locale.lower);
  }

  ghost predicate DistinctLeases(leases: seq<Lease>) {
    forall i, j :: 0 <= i < j < |leases| ==> leases[i].leaseUuid != leases[j].leaseUuid
  }

  ghost predicate Ordered(leases: seq<Lease>, leq: (string, string) -> bool) {
    forall i, j :: 0 <= i < j < |leases| ==> leq(leases[i].leaseUuid, leases[j].leaseUuid)
  }

  lemma PrependOrders(head: Lease, rest: seq<Lease>, leq: (string, string) -> bool)
    requires Ordered(rest, leq) && DistinctLeases(rest)
    requires forall l :: l in rest ==> leq(head.leaseUuid, l.leaseUuid) && head.leaseUuid != l.leaseUuid
    ensures Ordered([head] + rest, leq) && DistinctLeases([head] + rest)
  {
  }

  lemma {:induction false} InsertOrders(lease: Lease, sorted: seq<Lease>, leq: (string, string) -> bool)
    requires TotalOrder(leq) && Ordered(sorted, leq) && DistinctLeases(sorted)
    requires forall l :: l in sorted ==> l.leaseUuid != lease.leaseUuid
    ensures Ordered(Insert(lease, sorted, leq), leq) && DistinctLeases(Insert(lease, sorted, leq))
  {
    if sorted == [] {
    } else if leq(lease.leaseUuid, sorted[0].leaseUuid) {
      forall l | l in sorted ensures leq(lease.leaseUuid, l.leaseUuid) {
        assert l == sorted[0] || leq(sorted[0].leaseUuid, l.leaseUuid);
      }
      PrependOrders(lease, sorted, leq);
    } else {
      InsertOrders(lease, sorted[1..], leq);
      InsertHasSame(lease, sorted[1..], leq);
      PrependOrders(sorted[0], Insert(lease, sorted[1..], leq), leq);
    }
  }

  lemma {:induction false} SortOrders(leases: seq<Lease>, leq: (string, string) -> bool)
    requires TotalOrder(leq) && DistinctLeases(leases)
    ensures Ordered(SortLeases(leases, leq), leq) && DistinctLeases(SortLeases(leases, leq))
  {
    if leases != [] {
      SortOrders(leases[1..], leq);
      SortHasSame(leases[1..], leq);
      InsertOrders(leases[0], SortLeases(leases[1..], leq), leq);
    }
  }

  /** Two ordered lists of the same leases, each lease id once, are the same list. */
  lemma {:induction false} OrderedUnique(a: seq<Lease>, b: seq<Lease>, leq: (string, string) -> bool)
    requires TotalOrder(leq) && Ordered(a, leq) && Ordered(b, leq) && DistinctLeases(a) && DistinctLeases(b)
    requires forall l :: l in a <==> l in b
    ensures a == b
  {
    if a == [] {
      EmptyTogether(a, b);
    } else {
      EmptyTogether(a, b);
      SameHead(a, b, leq);
      forall l ensures l in a[1..] <==> l in b[1..] {
        TailMember(a, l);
        TailMember(b, l);
      }
      OrderedUnique(a[1..], b[1..], leq);
      assert a == [a[0]] + a[1..] && b == [b[0]] + b[1..];
    }
  }

  lemma EmptyTogether(a: seq<Lease>, b: seq<Lease>)
    requires forall l :: l in a <==> l in b
    ensures a == [] <==> b == []
  {
    if a != [] {
      assert a[0] in b;
    }
    if b != [] {
      assert b[0] in a;
    }
  }

  lemma SameHead(a: seq<Lease>, b: seq<Lease>, leq: (string, string) -> bool)
    requires TotalOrder(leq) && Ordered(a, leq) && Ordered(b, leq) && DistinctLeases(a) && a != [] && b != []
    requires forall l :: l in a <==> l in b
    ensures a[0] == b[0]
  {
    assert a[0] in b && b[0] in a;
    var i :| 0 <= i < |a| && a[i] == b[0];
    var j :| 0 <= j < |b| && b[j] == a[0];
    HeadIsLeast(a, i, leq);
    HeadIsLeast(b, j, leq);
  }

  lemma HeadIsLeast(a: seq<Lease>, i: nat, leq: (string, string) -> bool)
    requires TotalOrder(leq) && Ordered(a, leq) && i < |a|
    ensures leq(a[0].leaseUuid, a[i].leaseUuid)
  {
  }

  lemma TailMember(a: seq<Lease>, l: Lease)
    requires DistinctLeases(a) && a != []
    ensures l in a[1..] <==> l in a && l != a[0]
  {
    if l in a && l != a[0] {
      var i :| 0 <= i < |a| && a[i] == l;
      assert a[1..][i - 1] == l;
    }
  }

  /** For distinct lease ids the result does not depend on the order in which the leases were listed. */
  lemma ImportOrderIndependent(apps: seq<Entry>, leases: seq<Lease>, other: seq<Lease>, payloadless: set<string>,
                               locale: Locale)
    requires TotalOrder(locale.leq) && DistinctLeases(leases) && DistinctLeases(other)
    requires forall l :: l in leases <==> l in other
    ensures Import(apps, leases, payloadless, locale) == Import(apps, other, payloadless, locale)
  {
    hide ImportEach;
    SortHasSame(leases, locale.leq);
    SortHasSame(other, locale.leq);
    SortOrders(leases, locale.leq);
    SortOrders(other, locale.leq);
    OrderedUnique(SortLeases(leases, locale.leq), SortLeases(other, locale.leq), locale.leq);
  }

  // ------------------------------------------------------------- what an imported entry shows

  /** The name characters of a text in order, read from the end. */
  ghost predicate NameCharsOf(text: string, chars: string) {
    if text == "" then chars == ""
    else
      var last := |text| - 1;
      if NameChar(text[last]) then
        chars != "" && chars[|chars| - 1] == text[last] && NameCharsOf(text[..last], chars[..|chars| - 1])
      else NameCharsOf(text[..last], chars)
  }

  lemma {:induction false} NameCharsPrepend(c: char, text: string, chars: string)
    requires NameCharsOf(text, chars)
    ensures NameCharsOf([c] + text, (if NameChar(c) then [c] else "") + chars)
  {
    var own := if NameChar(c) then [c] else "";
    if text == "" {
      assert ([c] + text)[..0] == "" && own[..0] == "" && own + chars == own;
    } else {
      var last := |text| - 1;
      assert ([c] + text)[..last + 1] == [c] + text[..last];
      if NameChar(text[last]) {
        NameCharsPrepend(c, text[..last], chars[..|chars| - 1]);
        assert (own + chars)[..|own + chars| - 1] == own + chars[..|chars| - 1];
      } else {
        NameCharsPrepend(c, text[..last], chars);
      }
    }
  }

  lemma {:induction false} OnlyNameCharsAre(text: string)
    ensures NameCharsOf(text, OnlyNameChars(text))
  {
    if text != "" {
      OnlyNameCharsAre(text[1..]);
      NameCharsPrepend(text[0], text[1..], OnlyNameChars(text[1..]));
      assert text == [text[0]] + text[1..];
    }
  }

  /** A fallback name: the last 24 name characters of the lower-case lease id, or all if there are fewer. */
  ghost predicate Fallback(leaseUuid: string, lower: string -> string, base: string) {
    exists chars, dropped, tail ::
      && NameCharsOf(lower(leaseUuid), chars) && chars == dropped + tail
      && (|tail| == 24 || (dropped == "" && |tail| < 24))
      && base == "app-" + (if tail == "" then "lease" else tail)
  }

  lemma BaseIsFallback(leaseUuid: string, lower: string -> string)
    ensures Fallback(leaseUuid, lower, BaseName(leaseUuid, lower))
  {
    var chars := OnlyNameChars(lower(leaseUuid));
    OnlyNameCharsAre(lower(leaseUuid));
    var tail := LastChars(chars, 24);
    assert chars == chars[..|chars| - |tail|] + tail;
    hide OnlyNameChars, NameCharsOf;
  }

  /** The first of the base and its numbered forms that is not taken. */
  ghost predicate FirstUntaken(base: string, taken: set<string>, name: string) {
    if base !in taken then name == base
    else
      exists n :: n >= 2 && name == Suffixed(base, n) && name !in taken
               && forall m :: 2 <= m < n ==> Suffixed(base, m) in taken
  }

  /** Everything the chain said of the lease, and nothing else; the name is new to the entries before. */
  ghost predicate ShowsLease(e: Entry, lease: Lease, before: seq<Entry>, lower: string -> string) {
    && e.leaseUuid == lease.leaseUuid && e.chainState == Some(lease.chainState)
    && e.provisionState == Some(Unconfirmed) && e.customDomains == lease.customDomains
    && e.status == (if lease.chainState == Absent then Stopped else Deploying)
    && e.details.size == (match lease.size case Some(size) => size case None => "unknown")
    && e.details.providerUrl == (match lease.providerUrl case Some(url) => url case None => "")
    && e.details.providerUuid == lease.providerUuid && e.details.createdAt == lease.createdAt
    && e.details.url == None && e.details.connectionStale == None && e.details.manifest == None
    && e.connection == None && e.readinessStale == None
    && exists base :: Fallback(lease.leaseUuid, lower, base) && FirstUntaken(base, NamesOf(before), e.name)
  }

  lemma NewShowsLease(lease: Lease, before: seq<Entry>, lower: string -> string)
    ensures ShowsLease(NewEntry(lease, FreshName(BaseName(lease.leaseUuid, lower), NamesOf(before))), lease, before,
                       lower)
  {
    BaseIsFallback(lease.leaseUuid, lower);
    FreshIsFirst(BaseName(lease.leaseUuid, lower), NamesOf(before));
    hide FreshName, BaseName, NamesOf, Fallback, FirstUntaken;
    assert lease.chainState.Active? || lease.chainState.Pending? || lease.chainState.Absent?;
  }

  lemma FreshIsFirst(base: string, taken: set<string>)
    ensures FirstUntaken(base, taken, FreshName(base, taken))
  {
    hide Suffixed;
  }

  /** The entry at `i` shows one of the leases, and it was told apart from the entries before it. */
  ghost predicate ShowsAt(after: seq<Entry>, i: nat, leases: seq<Lease>, k: nat, lower: string -> string) {
    i < |after| && k < |leases| && ShowsLease(after[i], leases[k], after[..i], lower)
  }

  /** Every added entry shows its lease, and entries are added in the order of their leases. */
  lemma {:induction false} EachShows(apps: seq<Entry>, leases: seq<Lease>, payloadless: set<string>,
                                     lower: string -> string) returns (at: seq<nat>)
    ensures var after := ImportEach(apps, leases, payloadless, lower);
            && |after| == |apps| + |at| && after[..|apps|] == apps
            && (forall j, k :: 0 <= j < k < |at| ==> at[j] < at[k])
            && forall j :: 0 <= j < |at| ==> ShowsAt(after, |apps| + j, leases, at[j], lower)
  {
    hide ShowsLease, FreshName, BaseName, NewEntry, LeasesOf, NamesOf;
    at := [];
    if leases != [] {
      var front, lease := leases[..|leases| - 1], leases[|leases| - 1];
      at := EachShows(apps, front, payloadless, lower);
      var before, after := ImportEach(apps, front, payloadless, lower), ImportEach(apps, leases, payloadless, lower);
      forall j | 0 <= j < |at| ensures ShowsAt(after, |apps| + j, leases, at[j], lower) {
        assert ShowsAt(before, |apps| + j, front, at[j], lower);
        assert after[..|apps| + j] == before[..|apps| + j];
      }
      assert forall j :: 0 <= j < |at| ==> at[j] < |front|;
      if after != before {
        NewShowsLease(lease, before, lower);
        assert after[..|before|] == before;
        at := at + [|front|];
      }
    }
  }

  /** The imported entries show their leases, in ascending order of the lease ids. */
  lemma ImportShows(apps: seq<Entry>, leases: seq<Lease>, payloadless: set<string>, locale: Locale, i: nat)
      returns (lease: Lease)
    requires |KeepApps(apps, payloadless)| <= i < |Import(apps, leases, payloadless, locale)|
    ensures var after := Import(apps, leases, payloadless, locale);
            && lease in leases && ShowsLease(after[i], lease, after[..i], locale.lower)
            && (TotalOrder(locale.leq) && DistinctLeases(leases) ==>
                  forall j :: i < j < |after| ==> locale.leq(after[i].leaseUuid, after[j].leaseUuid))
  {
    hide FreshName, BaseName, NewEntry, LeasesOf, NamesOf, Fallback, FirstUntaken, SortLeases, KeepApps, ImportEach;
    var kept, sorted := KeepApps(apps, payloadless), SortLeases(leases, locale.leq);
    var at := EachShows(kept, sorted, payloadless, locale.lower);
    SortHasSame(leases, locale.leq);
    var after := ImportEach(kept, sorted, payloadless, locale.lower);
    assert ShowsAt(after, |kept| + (i - |kept|), sorted, at[i - |kept|], locale.lower);
    lease := sorted[at[i - |kept|]];
    if TotalOrder(locale.leq) && DistinctLeases(leases) {
      SortOrders(leases, locale.leq);
      forall j | i < j < |after| ensures locale.leq(after[i].leaseUuid, after[j].leaseUuid) {
        assert ShowsAt(after, |kept| + (j - |kept|), sorted, at[j - |kept|], locale.lower);
        assert at[i - |kept|] < at[j - |kept|];
      }
    }
  }

  // ------------------------------------------------------------- the loop

  /** `for (n = 2; names.has(name); n++)`: ends because only finitely many names are taken. */
  method PickName(baseName: string, names: set<string>) returns (name: string)
    ensures name == FreshName(baseName, names)
  {
    name := baseName;
    var n := 2;
    while name in names
      invariant n >= 2 && forall m :: 2 <= m < n - 1 ==> Suffixed(baseName, m) in names
      invariant name == if n == 2 then baseName else Suffixed(baseName, n - 1)
      invariant n > 2 ==> baseName in names
      decreases |names| + 3 - n
    {
      if n > 2 {
        TakenBound(baseName, names, n);
      }
      name := Suffixed(baseName, n);
      n := n + 1;
    }
    if n > 2 {
      LeastIndex(baseName, names, n - 1);
    }
  }

  lemma LeastIndex(base: string, names: set<string>, n: nat)
    requires n >= 2 && Suffixed(base, n) !in names
    requires forall m :: 2 <= m < n ==> Suffixed(base, m) in names
    ensures FreshIndex(base, names, 2) == n
  {
    var r := FreshIndex(base, names, 2);
    assert Suffixed(base, r) !in names;
  }

  /** The apps on providers that this deployment allows. */
  function VisibleApps(apps: seq<Entry>, allowed: string -> bool): (r: seq<Entry>)
    ensures forall e :: e in r <==> e in apps && allowed(e.details.providerUrl)
  {
    if apps == [] then []
    else
      var last := apps[|apps| - 1];
      VisibleApps(apps[..|apps| - 1], allowed) + (if allowed(last.details.providerUrl) then [last] else [])
  }

  lemma {:induction false} VisibleKeepsAll(apps: seq<Entry>, allowed: string -> bool)
    requires forall e :: e in apps ==> allowed(e.details.providerUrl)
    ensures VisibleApps(apps, allowed) == apps
  {
    if apps != [] {
      assert apps == apps[..|apps| - 1] + [apps[|apps| - 1]];
      VisibleKeepsAll(apps[..|apps| - 1], allowed);
    }
  }

  method DiscoverAppsFromChain(loaded: seq<Entry>, leases: seq<Lease>, payloadless: set<string>, locale: Locale,
                               allowed: string -> bool)
      returns (apps: seq<Entry>, changed: bool, visible: seq<Entry>)
    ensures apps == Import(loaded, leases, payloadless, locale)
    ensures changed <==> apps != loaded
    ensures KeepApps(loaded, payloadless) <= apps
    ensures visible == VisibleApps(apps[|KeepApps(loaded, payloadless)|..], allowed)
  {
    hide FreshName, BaseName, SortLeases, KeepApps, VisibleApps;
    apps := KeepApps(loaded, payloadless);
    var forgotten := |apps| != |loaded|;
    ghost var kept := apps;
    var knownLeases, names := LeasesOf(apps), NamesOf(apps);
    var imported := 0;
    var sorted := SortLeases(leases, locale.leq);
    for i := 0 to |sorted|
      invariant apps == ImportEach(kept, sorted[..i], payloadless, locale.lower)
      invariant knownLeases == LeasesOf(apps) && names == NamesOf(apps)
      invariant |apps| == |kept| + imported && apps[..|kept|] == kept
    {
      var lease := sorted[i];
      assert sorted[..i + 1][..i] == sorted[..i];
      if lease.leaseUuid in knownLeases || lease.leaseUuid in payloadless {
        continue;
      }
      var name := PickName(BaseName(lease.leaseUuid, locale.lower), names);
      AppendedSets(apps, NewEntry(lease, name));
      apps := apps + [NewEntry(lease, name)];
      knownLeases := knownLeases + {lease.leaseUuid};
      names := names + {name};
      imported := imported + 1;
    }
    assert sorted[..|sorted|] == sorted;
    changed := forgotten || imported > 0;
    visible := VisibleApps(apps[|apps| - imported..], allowed);
    ImportsEach(kept, sorted, payloadless, locale.lower);
    ImportChanges(loaded, apps, leases, payloadless);
  }

  /** An import changes the list exactly when it forgets or adds an entry. */
  lemma ImportChanges(loaded: seq<Entry>, apps: seq<Entry>, leases: seq<Lease>, payloadless: set<string>)
    requires var kept := KeepApps(loaded, payloadless);
             kept <= apps && forall i :: |kept| <= i < |apps| ==> apps[i].leaseUuid !in payloadless
    ensures var kept := KeepApps(loaded, payloadless);
            apps != loaded <==> |kept| != |loaded| || |apps| > |kept|
  {
    var kept := KeepApps(loaded, payloadless);
    KeptOrShorter(loaded, payloadless);
    if |kept| != |loaded| {
      var e := ForgottenEntry(loaded, payloadless);
      forall i | 0 <= i < |apps| ensures apps[i] != e {
        assert i < |kept| ==> apps[i] == kept[i] && kept[i] in kept;
      }
    }
  }

  lemma AppendedSets(apps: seq<Entry>, e: Entry)
    ensures NamesOf(apps + [e]) == NamesOf(apps) + {e.name}
    ensures LeasesOf(apps + [e]) == LeasesOf(apps) + {e.leaseUuid}
  {
    var all := apps + [e];
    assert all[|apps|] == e;
    forall n | n in NamesOf(apps) ensures n in NamesOf(all) {
      var i :| 0 <= i < |apps| && apps[i].name == n;
      assert all[i].name == n;
    }
    forall l | l in LeasesOf(apps) ensures l in LeasesOf(all) {
      var i :| 0 <= i < |apps| && apps[i].leaseUuid == l;
      assert all[i].leaseUuid == l;
    }
    assert all[|apps|].name in NamesOf(all) && all[|apps|].leaseUuid in LeasesOf(all);
  }

  lemma {:induction false} ForgottenEntry(apps: seq<Entry>, payloadless: set<string>) returns (e: Entry)
    requires |KeepApps(apps, payloadless)| < |apps|
    ensures e in apps && e.leaseUuid in payloadless
  {
    var last := apps[|apps| - 1];
    if last.leaseUuid in payloadless {
      e := last;
    } else {
      e := ForgottenEntry(apps[..|apps| - 1], payloadless);
    }
  }

  lemma {:induction false} KeptOrShorter(apps: seq<Entry>, payloadless: set<string>)
    ensures |KeepApps(apps, payloadless)| == |apps| ==> KeepApps(apps, payloadless) == apps
  {
    if apps != [] {
      KeptOrShorter(apps[..|apps| - 1], payloadless);
    }
  }
}
