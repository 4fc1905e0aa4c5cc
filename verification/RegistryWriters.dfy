/** The registry as an object: its entries are changed in place, saves and notices are counted. */
module RegistryWriters {
  import opened Options
  import opened AppStatus
  import opened RegistryImport
  import opened AppRegistry

  /**
   * Two connections are the same when both are missing or when the schema accepts both in the same form. One that the
   * schema rejects never is, not even written the same way: the stored one was read back and is another object.
   */
  predicate SameConnection(a: Option<string>, b: Option<string>, schema: string -> Option<string>) {
    if a.None? || b.None? then a == b else schema(a.value).Some? && schema(a.value) == schema(b.value)
  }

  /** Missing connections are the same; others only when the schema accepts both, and in one form. */
  lemma SameConnectionTells(a: Option<string>, b: Option<string>, schema: string -> Option<string>)
    ensures SameConnection(a, b, schema) <==> SameConnection(b, a, schema)
    ensures SameConnection(a, None, schema) <==> a == None
    ensures SameConnection(a, a, schema) <==> a.None? || schema(a.value).Some?
    ensures a.Some? && b.Some? ==>
              (SameConnection(a, b, schema) <==>
                 exists form :: schema(a.value) == Some(form) && schema(b.value) == Some(form))
  {
    if a.Some? && b.Some? && SameConnection(a, b, schema) {
      assert schema(a.value) == Some(schema(a.value).value);
    }
  }

  /** An entry apart from its connection. */
  datatype Seen = Seen(name: string, details: Details, status: Status, customDomains: Option<seq<CustomDomain>>)

  datatype Stored = Stored(leaseUuid: string, seen: Seen, readinessStale: Option<bool>, chainState: Option<ChainState>,
                           provisionState: Option<ProvisionState>)

  /** What subscribers render. Raw observations reach them only through the derived status. */
  function Visible(e: Entry): Seen {
    Seen(e.name, e.details, e.status, e.customDomains)
  }

  function StoredForm(e: Entry): Stored {
    Stored(e.leaseUuid, Visible(e), e.readinessStale, e.chainState, e.provisionState)
  }

  function Changed<T(==)>(change: Change<T>, before: T, after: T): bool {
    change.To? && before != after
  }

  ghost predicate StatusMoved(before: seq<Entry>, after: seq<Entry>) {
    |before| == |after| && exists i :: 0 <= i < |before| && before[i].status != after[i].status
  }

  class WalletRegistry {
    const schema: string -> Option<string>
    var apps: seq<Entry>
    var saves: nat
    var notices: nat

    constructor (schema: string -> Option<string>)
      ensures apps == [] && Consistent(apps) && saves == notices == 0
    {
      this.schema := schema;
      apps, saves, notices := [], 0, 0;
    }

    method AddApp(leaseUuid: string, entry: Patch) returns (stored: Entry)
      requires Consistent(apps)
      modifies this
      ensures apps == Apply(old(apps), Add(leaseUuid, entry)) && Consistent(apps)
      ensures stored in apps && stored == StoredBy(old(apps), leaseUuid, entry)
      ensures saves == old(saves) + 1 && notices == old(notices) + 1
    {
      ApplyKeepsConsistent(apps, Add(leaseUuid, entry));
      var existing := IndexOf(apps, leaseUuid);
      var merged := Merged(if existing < |apps| then apps[existing] else Blank(leaseUuid), entry);
      stored := Derived(merged);
      apps := Others(apps, stored) + [stored];
      saves, notices := saves + 1, notices + 1;
    }

    /**
     * Saves exactly when the entry changed or a connection was given that is not the same, and notifies exactly when
     * subscribers see the difference; an unsaved result differs at most in how the same connection is written.
     */
    method UpdateApp(leaseUuid: string, updates: Patch) returns (r: Option<Entry>)
      requires Consistent(apps)
      modifies this
      ensures Consistent(apps)
      ensures var i := IndexOf(old(apps), leaseUuid);
              if i == |old(apps)| then r == None && apps == old(apps) && saves == old(saves) && notices == old(notices)
              else
                var prev, next := old(apps)[i], Derived(Merged(old(apps)[i], updates));
                var reconnected :=
                  updates.connection.To? && !SameConnection(prev.connection, updates.connection.value, schema);
                var dirty := reconnected || StoredForm(prev) != StoredForm(next);
                var visible := reconnected || Visible(prev) != Visible(next);
                && r == Some(next)
                && apps == (if dirty then Apply(old(apps), Update(leaseUuid, updates)) else old(apps))
                && saves == old(saves) + (if dirty then 1 else 0)
                && notices == old(notices) + (if visible then 1 else 0)
                && (prev.status != next.status ==> saves == old(saves) + 1 && notices == old(notices) + 1)
                && (next == prev.(readinessStale := next.readinessStale, chainState := next.chainState,
                                  provisionState := next.provisionState) && updates.connection.Keep? ==>
                      notices == old(notices) && (next != prev ==> saves == old(saves) + 1))
                && (!dirty ==> next == prev.(connection := next.connection)
                               && (next == prev || SameConnection(prev.connection, next.connection, schema)))
    {
      ApplyKeepsConsistent(apps, Update(leaseUuid, updates));
      hide DeriveStatus;
      var i := IndexOf(apps, leaseUuid);
      if i == |apps| {
        return None;
      }
      var prev := apps[i];
      var next := Derived(Merged(prev, updates));
      var visible := prev.status != next.status;
      var dirty := visible;
      if || Changed(updates.name, prev.name, next.name) || Changed(updates.details, prev.details, next.details)
         || Changed(updates.customDomains, prev.customDomains, next.customDomains)
         || (updates.connection.To? && !SameConnection(prev.connection, next.connection, schema)) {
        dirty, visible := true, true;
      }
      if || Changed(updates.readinessStale, prev.readinessStale, next.readinessStale)
         || Changed(updates.chainState, prev.chainState, next.chainState)
         || Changed(updates.provisionState, prev.provisionState, next.provisionState) {
        dirty := true;
      }
      if dirty {
        apps := apps[i := next];
        saves := saves + 1;
        if visible {
          notices := notices + 1;
        }
      }
      return Some(next);
    }

    method RemoveApp(leaseUuid: string) returns (removed: bool)
      requires Consistent(apps)
      modifies this
      ensures apps == Apply(old(apps), Remove(leaseUuid)) && Consistent(apps)
      ensures removed <==> exists e :: e in old(apps) && e.leaseUuid == leaseUuid
      ensures saves == old(saves) + (if removed then 1 else 0) && notices == old(notices) + (if removed then 1 else 0)
    {
      ApplyKeepsConsistent(apps, Remove(leaseUuid));
      var filtered := Without(apps, leaseUuid);
      WithoutLength(apps, leaseUuid);
      if |filtered| == |apps| {
        return false;
      }
      apps := filtered;
      saves, notices := saves + 1, notices + 1;
      return true;
    }

    /** Writes the chain state of every entry the snapshot is fit for; tells subscribers only of a changed status. */
    method ReconcileWithChain(live: map<string, ChainState>, expected: Option<map<string, Option<ChainState>>>)
      requires Consistent(apps)
      modifies this
      ensures apps == Apply(old(apps), ChainTick(live, expected)) && Consistent(apps)
      ensures saves == old(saves) + (if apps != old(apps) then 1 else 0)
      ensures notices == old(notices) + (if StatusMoved(old(apps), apps) then 1 else 0)
    {
      ApplyKeepsConsistent(apps, ChainTick(live, expected));
      hide DeriveStatus;
      var loaded, dirty, statusChanged := apps, false, false;
      for i := 0 to |apps|
        invariant |loaded| == |apps| == |old(apps)| && apps == old(apps)
        invariant saves == old(saves) && notices == old(notices)
        invariant forall k :: 0 <= k < i ==> loaded[k] == TickEntry(apps[k], live, expected)
        invariant forall k :: i <= k < |apps| ==> loaded[k] == apps[k]
        invariant dirty <==> exists k :: 0 <= k < i && loaded[k] != apps[k]
        invariant statusChanged <==> exists k :: 0 <= k < i && loaded[k].status != apps[k].status
      {
        hide StatusMoved, Consistent, Apply;
        var app := loaded[i];
        if expected.Some? && (app.leaseUuid !in expected.value || app.chainState != expected.value[app.leaseUuid]) {
          continue;
        }
        var chainState := Some(if app.leaseUuid in live then live[app.leaseUuid] else Absent);
        var status := DeriveStatus(chainState, app.provisionState, app.status);
        if app.chainState != chainState {
          app := app.(chainState := chainState);
          dirty := true;
        }
        if app.status != status {
          app := app.(status := status);
          dirty := true;
          statusChanged := true;
        }
        loaded := loaded[i := app];
      }
      if dirty {
        apps := loaded;
        saves := saves + 1;
        if statusChanged {
          notices := notices + 1;
        }
      }
    }

    /** Takes over domains seen on chain, unless the local value changed since the observation began. */
    method ReconcileCustomDomains(observations: map<string, DomainObservation>)
      requires Consistent(apps)
      modifies this
      ensures apps == Apply(old(apps), DomainTick(observations)) && Consistent(apps)
      ensures saves == old(saves) + (if apps != old(apps) then 1 else 0)
      ensures notices == old(notices) + (if apps != old(apps) then 1 else 0)
    {
      ApplyKeepsConsistent(apps, DomainTick(observations));
      var loaded, dirty := apps, false;
      for i := 0 to |apps|
        invariant |loaded| == |apps| == |old(apps)| && apps == old(apps)
        invariant saves == old(saves) && notices == old(notices)
        invariant forall k :: 0 <= k < i ==> loaded[k] == DomainEntry(apps[k], observations)
        invariant forall k :: i <= k < |apps| ==> loaded[k] == apps[k]
        invariant dirty <==> exists k :: 0 <= k < i && loaded[k] != apps[k]
      {
        var app := loaded[i];
        if app.leaseUuid !in observations {
          continue;
        }
        var observation := observations[app.leaseUuid];
        var current := DomainsOf(app.customDomains);
        if current != DomainsOf(observation.expected) || current == observation.seen {
          continue;
        }
        loaded := loaded[i := app.(customDomains := Some(observation.seen))];
        dirty := true;
      }
      if dirty {
        apps := loaded;
        saves, notices := saves + 1, notices + 1;
      }
    }

    /** Returns the imported apps whose providers this deployment allows; the others are stored all the same. */
    method DiscoverApps(leases: seq<Lease>, payloadless: set<string>, locale: Locale, allowed: string -> bool)
        returns (visible: seq<Entry>)
      requires Consistent(apps)
      modifies this
      ensures |KeepApps(old(apps), payloadless)| <= |apps|
      ensures visible == VisibleApps(apps[|KeepApps(old(apps), payloadless)|..], allowed)
      ensures apps == Apply(old(apps), Discover(leases, payloadless, locale)) && Consistent(apps)
      ensures saves == old(saves) + (if apps != old(apps) then 1 else 0)
      ensures notices == old(notices) + (if apps != old(apps) then 1 else 0)
    {
      hide Import, Consistent;
      ApplyKeepsConsistent(apps, Discover(leases, payloadless, locale));
      var all, changed, imported := DiscoverAppsFromChain(apps, leases, payloadless, locale, allowed);
      visible := imported;
      if changed {
        apps := all;
        saves, notices := saves + 1, notices + 1;
      }
    }
  }

  lemma {:induction false} WithoutLength(apps: seq<Entry>, leaseUuid: string)
    ensures |Without(apps, leaseUuid)| <= |apps|
    ensures |Without(apps, leaseUuid)| == |apps| ==> Without(apps, leaseUuid) == apps
    ensures (forall i :: 0 <= i < |apps| ==> apps[i].leaseUuid != leaseUuid) ==> Without(apps, leaseUuid) == apps
  {
    if apps != [] {
      var front, last := apps[..|apps| - 1], apps[|apps| - 1];
      WithoutLength(front, leaseUuid);
      assert apps == front + [last];
    }
  }
}
