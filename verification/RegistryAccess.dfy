/** The registry's writers over the cache: each starts from a read that may fail and ends with a write that may fail. */
module RegistryAccess {
  import opened Options
  import opened AppStatus
  import opened RegistryImport
  import AppRegistry
  import opened RegistryStorage

  /** Validation may drop an entry or tidy it up, but leaves alone what the registry's rules look at. */
  ghost predicate KeepsRules(schema: Schema<Entry>) {
    forall x :: schema(x).Some? ==>
      var y := schema(x).value;
      && y.leaseUuid == x.leaseUuid && y.name == x.name && y.status == x.status
      && y.chainState == x.chainState && y.provisionState == x.provisionState
  }

  /** Whether reading, cleaning up while reading, and writing succeed this time. */
  datatype Access = Access(readOk: bool, cleanOk: bool, writeOk: bool)

  function Read(c: Cache<Entry>, address: string, schema: Schema<Entry>, access: Access): Loaded<Entry> {
    Load(c, address, schema, access.readOk, access.cleanOk)
  }

  /** A writer loads the list, changes it and saves it; all but an addition may find nothing to save. */
  function Write(c: Cache<Entry>, address: string, op: AppRegistry.Op, saves: bool, schema: Schema<Entry>,
                 access: Access): Cache<Entry> {
    var loaded := Read(c, address, schema, access);
    if op.Add? || saves then Saved(loaded.cache, address, AppRegistry.Apply(loaded.apps, op), access.writeOk)
    else loaded.cache
  }

  /** What the wallet's list is when storage works. */
  function Truth(c: Cache<Entry>, address: string, schema: Schema<Entry>): seq<Entry> {
    Normal(Load(c, address, schema, true, true).apps, schema)
  }

  lemma {:induction false} NormalHas(entries: seq<Entry>, schema: Schema<Entry>, e: Entry)
    ensures e in Normal(entries, schema) <==> exists x :: x in entries && schema(x) == Some(e)
  {
    if entries != [] {
      var front, last := entries[..|entries| - 1], entries[|entries| - 1];
      NormalHas(front, schema, e);
      assert entries == front + [last];
    }
  }

  // ------------------------------------------------------------- what an addition keeps

  /** The entries of other leases are still there, apart from finished ones whose name was taken over. */
  ghost predicate OthersKept(before: seq<Entry>, after: seq<Entry>, stored: Entry) {
    forall e :: e in before && Stays(e, stored) ==> e in after
  }

  predicate Stays(e: Entry, stored: Entry) {
    e.leaseUuid != stored.leaseUuid && (e.name != stored.name || !AppRegistry.Terminal(e))
  }

  function StoredEntry(c: Cache<Entry>, address: string, leaseUuid: string, p: AppRegistry.Patch, schema: Schema<Entry>,
                       access: Access): Entry {
    AppRegistry.StoredBy(Read(c, address, schema, access).apps, leaseUuid, p)
  }

  /** A list just saved is the list from then on, whether the write succeeded or not. */
  lemma SavedIsTruth(c: Cache<Entry>, address: string, apps: seq<Entry>, schema: Schema<Entry>, writeOk: bool)
    requires Idempotent(schema)
    ensures Truth(Saved(c, address, apps, writeOk), address, schema) == Normal(apps, schema)
  {
    NormalSettles(apps, schema);
    hide Normal;
  }

  lemma WorkingReadIsTruth(c: Cache<Entry>, address: string, schema: Schema<Entry>, access: Access)
    requires access.readOk || address in c.unsaved
    ensures Normal(Read(c, address, schema, access).apps, schema) == Truth(c, address, schema)
  {
    hide Normal;
  }

  /** Which of the others an addition to a list keeps is decided by that list alone. */
  lemma AddedHas(apps: seq<Entry>, stored: Entry, schema: Schema<Entry>, e: Entry)
    requires KeepsRules(schema) && Stays(e, stored)
    ensures e in Normal(AppRegistry.Others(apps, stored) + [stored], schema) <==> e in Normal(apps, schema)
  {
    var after := AppRegistry.Others(apps, stored) + [stored];
    NormalHas(after, schema, e);
    NormalHas(apps, schema, e);
    hide Normal, AppRegistry.Others;
    assert forall x :: x in after <==> x in AppRegistry.Others(apps, stored) || x == stored;
    forall x | schema(x) == Some(e) ensures x in after <==> x in apps {
      assert x.leaseUuid == e.leaseUuid && x.name == e.name && x.status == e.status;
    }
  }

  /**
   * An addition keeps the entries of all other leases exactly when its read worked, when the list was unsaved and so
   * still in memory, or when memory happens to hold them all.
   */
  lemma AddKeepsExactly(c: Cache<Entry>, address: string, leaseUuid: string, p: AppRegistry.Patch,
                        schema: Schema<Entry>,
                        access: Access)
    requires Idempotent(schema) && KeepsRules(schema)
    ensures var stored := StoredEntry(c, address, leaseUuid, p, schema, access);
            var after := Write(c, address, AppRegistry.Add(leaseUuid, p), true, schema, access);
            OthersKept(Truth(c, address, schema), Truth(after, address, schema), stored) <==>
              || access.readOk || address in c.unsaved
              || OthersKept(Truth(c, address, schema), Normal(InMemory(c, address), schema), stored)
  {
    hide Normal, Truth, Saved, AppRegistry.Others, AppRegistry.StoredBy, KeepsRules, Idempotent, Stays;
    var loaded, stored := Read(c, address, schema, access), StoredEntry(c, address, leaseUuid, p, schema, access);
    var after := Write(c, address, AppRegistry.Add(leaseUuid, p), true, schema, access);
    SavedIsTruth(loaded.cache, address, AppRegistry.Others(loaded.apps, stored) + [stored], schema, access.writeOk);
    forall e | Stays(e, stored)
      ensures e in Truth(after, address, schema) <==> e in Normal(loaded.apps, schema)
    {
      AddedHas(loaded.apps, stored, schema, e);
    }
    if access.readOk || address in c.unsaved {
      WorkingReadIsTruth(c, address, schema, access);
    } else {
      assert loaded.apps == InMemory(c, address);
    }
  }

  /** Once this tab has saved the list, an addition keeps the others whatever fails. */
  lemma AddAfterSaveKeeps(c: Cache<Entry>, address: string, apps: seq<Entry>, leaseUuid: string, p: AppRegistry.Patch,
                          schema: Schema<Entry>, access: Access)
    requires Idempotent(schema) && KeepsRules(schema) && Holds(c, address, apps, schema)
    ensures var after := Write(c, address, AppRegistry.Add(leaseUuid, p), true, schema, access);
            OthersKept(Truth(c, address, schema), Truth(after, address, schema),
                       StoredEntry(c, address, leaseUuid, p, schema, access))
  {
    hide KeepsRules, Normal, Write, StoredEntry;
    HeldIsRead(c, address, apps, schema, true, true);
    AddKeepsExactly(c, address, leaseUuid, p, schema, access);
  }

  /** A failed read without a copy in memory makes the next good write overwrite the stored list. */
  lemma FailedReadOverwrites(c: Cache<Entry>, address: string, leaseUuid: string, p: AppRegistry.Patch,
                             schema: Schema<Entry>)
    requires address !in c.unsaved && address !in c.memory
    ensures var access := Access(false, true, true);
            var after := Write(c, address, AppRegistry.Add(leaseUuid, p), true, schema, access);
            address in after.storage
            && after.storage[address] == Listed([StoredEntry(c, address, leaseUuid, p, schema, access)])
  {
    assert AppRegistry.Others([], StoredEntry(c, address, leaseUuid, p, schema, Access(false, true, true))) == [];
  }

  // ------------------------------------------------------------- what a discovery keeps

  /** A discovery saves exactly when it adds or drops an entry of the list it read. */
  function Discover(c: Cache<Entry>, address: string, leases: seq<Lease>, payloadless: set<string>, locale: Locale,
                    schema: Schema<Entry>, access: Access): Cache<Entry> {
    var apps := Read(c, address, schema, access).apps;
    Write(c, address, AppRegistry.Discover(leases, payloadless, locale),
          Import(apps, leases, payloadless, locale) != apps, schema, access)
  }

  ghost predicate ListedKept(before: seq<Entry>, after: seq<Entry>, payloadless: set<string>) {
    forall e :: e in before && e.leaseUuid !in payloadless ==> e in after
  }

  /** The entries that a provider was ever asked about are still there. */
  ghost predicate ObservedKept(before: seq<Entry>, after: seq<Entry>, payloadless: set<string>) {
    forall e :: e in before && Observed(e) && e.leaseUuid !in payloadless ==> e in after
  }

  predicate Observed(e: Entry) {
    e.provisionState != Some(Unconfirmed)
  }

  /** An import keeps what it does not drop, and adds no entry that anyone observed. */
  lemma ImportHas(apps: seq<Entry>, leases: seq<Lease>, payloadless: set<string>, locale: Locale, x: Entry)
    requires x.leaseUuid !in payloadless
    ensures var after := Import(apps, leases, payloadless, locale);
            (x in apps ==> x in after) && (Observed(x) && x in after ==> x in apps)
  {
    hide BaseName, DeriveStatus, SortLeases, NewOnes, Covered;
    var kept, sorted := KeepApps(apps, payloadless), SortLeases(leases, locale.leq);
    ImportsEach(kept, sorted, payloadless, locale.lower);
    var after := Import(apps, leases, payloadless, locale);
    assert after == kept + after[|kept|..];
    if x in after && x !in kept {
      var i :| |kept| <= i < |after| && after[i] == x;
      assert FromLease(after[i], sorted, payloadless);
    }
  }

  lemma ImportedHas(apps: seq<Entry>, leases: seq<Lease>, payloadless: set<string>, locale: Locale,
                    schema: Schema<Entry>, e: Entry)
    requires KeepsRules(schema) && e.leaseUuid !in payloadless
    ensures var after := Normal(Import(apps, leases, payloadless, locale), schema);
            && (e in Normal(apps, schema) ==> e in after)
            && (Observed(e) && e in after ==> e in Normal(apps, schema))
  {
    NormalHas(apps, schema, e);
    NormalHas(Import(apps, leases, payloadless, locale), schema, e);
    hide Normal, Import;
    forall x | schema(x) == Some(e)
      ensures var after := Import(apps, leases, payloadless, locale);
              (x in apps ==> x in after) && (Observed(e) && x in after ==> x in apps)
    {
      assert x.leaseUuid == e.leaseUuid && x.provisionState == e.provisionState;
      ImportHas(apps, leases, payloadless, locale, x);
    }
  }

  lemma ReadKeepsTruth(c: Cache<Entry>, address: string, schema: Schema<Entry>, access: Access)
    requires Idempotent(schema)
    ensures Truth(Read(c, address, schema, access).cache, address, schema) == Truth(c, address, schema)
  {
    hide Normal;
    if InStorage(c, address).Listed? {
      NormalSettles(InStorage(c, address).entries, schema);
    }
  }

  /**
   * A discovery whose read worked, or whose list was unsaved, keeps all entries but the payloadless ones. Otherwise it
   * keeps the observed entries exactly when it finds nothing to save or memory happens to hold them all.
   */
  lemma DiscoverKeepsExactly(c: Cache<Entry>, address: string, leases: seq<Lease>, payloadless: set<string>,
                             locale: Locale, schema: Schema<Entry>, access: Access)
    requires Idempotent(schema) && KeepsRules(schema)
    ensures var before := Truth(c, address, schema);
            var after := Truth(Discover(c, address, leases, payloadless, locale, schema, access), address, schema);
            var memory := InMemory(c, address);
            && (access.readOk || address in c.unsaved ==> ListedKept(before, after, payloadless))
            && (ObservedKept(before, after, payloadless) <==>
                  || access.readOk || address in c.unsaved || Import(memory, leases, payloadless, locale) == memory
                  || ObservedKept(before, Normal(memory, schema), payloadless))
  {
    hide Normal, Truth, Saved, Import, KeepsRules, Idempotent, Observed;
    var loaded := Read(c, address, schema, access);
    var imported := Import(loaded.apps, leases, payloadless, locale);
    ReadKeepsTruth(c, address, schema, access);
    SavedIsTruth(loaded.cache, address, imported, schema, access.writeOk);
    forall e: Entry | e.leaseUuid !in payloadless
      ensures e in Normal(loaded.apps, schema) ==> e in Normal(imported, schema)
      ensures Observed(e) && e in Normal(imported, schema) ==> e in Normal(loaded.apps, schema)
    {
      ImportedHas(loaded.apps, leases, payloadless, locale, schema, e);
    }
    if access.readOk || address in c.unsaved {
      WorkingReadIsTruth(c, address, schema, access);
    } else {
      assert loaded.apps == InMemory(c, address);
    }
  }

  /** After a failed read without a copy in memory, the list stored next holds nothing but freshly imported entries. */
  lemma FailedReadReimports(c: Cache<Entry>, address: string, leases: seq<Lease>, payloadless: set<string>,
                            locale: Locale, schema: Schema<Entry>)
    requires address !in c.unsaved && address !in c.memory
    requires exists l :: l in leases && l.leaseUuid !in payloadless
    ensures var access := Access(false, true, true);
            var after := Discover(c, address, leases, payloadless, locale, schema, access);
            && address in after.storage && after.storage[address].Listed?
            && after.storage[address].entries != []
            && forall e :: e in after.storage[address].entries ==> !Observed(e) && FromLease(e, leases, payloadless)
  {
    hide Import;
    NothingConsistent();
    ImportKeepsConsistent([], leases, payloadless, locale);
    var after := Import([], leases, payloadless, locale);
    var l :| l in leases && l.leaseUuid !in payloadless;
    assert l.leaseUuid in LeasesOf(after);
  }

  // ------------------------------------------------------------- consistency, whatever fails

  datatype Step =
    | Writer(address: string, op: AppRegistry.Op, saves: bool, access: Access)
    | Reader(address: string, access: Access)
    | OtherTab(address: string, raw: Raw<Entry>)
    | Event(address: string)

  function Apply(c: Cache<Entry>, step: Step, schema: Schema<Entry>): Cache<Entry> {
    match step
    case Writer(address, op, saves, access) => Write(c, address, op, saves, schema, access)
    case Reader(address, access) => Read(c, address, schema, access).cache
    case OtherTab(address, raw) => c.(storage := c.storage[address := raw])
    case Event(address) => Announced(c, address)
  }

  function Run(c: Cache<Entry>, steps: seq<Step>, schema: Schema<Entry>): Cache<Entry> {
    if steps == [] then c else Apply(Run(c, steps[..|steps| - 1], schema), steps[|steps| - 1], schema)
  }

  ghost predicate ConsistentRaw(raw: Raw<Entry>, schema: Schema<Entry>) {
    raw.Listed? ==> Consistent(Normal(raw.entries, schema))
  }

  ghost predicate AllConsistent(c: Cache<Entry>, schema: Schema<Entry>) {
    && (forall a :: a in c.memory ==> Consistent(c.memory[a]))
    && (forall a :: a in c.storage ==> ConsistentRaw(c.storage[a], schema))
  }

  /** Other tabs run the same code. */
  ghost predicate Honest(step: Step, schema: Schema<Entry>) {
    step.OtherTab? ==> ConsistentRaw(step.raw, schema)
  }

  lemma {:induction false} NormalConsistent(entries: seq<Entry>, schema: Schema<Entry>)
    requires KeepsRules(schema) && Consistent(entries)
    ensures Consistent(Normal(entries, schema))
  {
    if entries != [] {
      var front, last := entries[..|entries| - 1], entries[|entries| - 1];
      NormalConsistent(front, schema);
      var normal := Normal(front, schema);
      forall i | 0 <= i < |normal| ensures normal[i].leaseUuid != last.leaseUuid {
        NormalHas(front, schema, normal[i]);
        var x :| x in front && schema(x) == Some(normal[i]);
        assert x.leaseUuid == normal[i].leaseUuid;
      }
      assert Derived(last) == last;
      hide DeriveStatus;
    }
  }

  lemma ReadIsConsistent(c: Cache<Entry>, address: string, schema: Schema<Entry>, access: Access)
    requires Idempotent(schema) && KeepsRules(schema) && AllConsistent(c, schema)
    ensures var loaded := Read(c, address, schema, access);
            Consistent(loaded.apps) && AllConsistent(loaded.cache, schema)
  {
    hide Normal, KeepsRules, Consistent;
    NothingConsistent();
    if InStorage(c, address).Listed? {
      NormalSettles(InStorage(c, address).entries, schema);
    }
  }

  lemma NothingConsistent()
    ensures Consistent([])
  {
  }

  lemma SavingKeepsConsistent(c: Cache<Entry>, address: string, apps: seq<Entry>, schema: Schema<Entry>, writeOk: bool)
    requires KeepsRules(schema) && AllConsistent(c, schema) && Consistent(apps)
    ensures AllConsistent(Saved(c, address, apps, writeOk), schema)
  {
    NormalConsistent(apps, schema);
    hide Normal, KeepsRules, Consistent;
  }

  lemma StepKeepsConsistent(c: Cache<Entry>, step: Step, schema: Schema<Entry>)
    requires Idempotent(schema) && KeepsRules(schema) && AllConsistent(c, schema) && Honest(step, schema)
    ensures AllConsistent(Apply(c, step, schema), schema)
  {
    hide Normal, KeepsRules, Idempotent, Consistent, Saved, Load, AppRegistry.Apply;
    match step
    case Writer(address, op, saves, access) =>
      ReadIsConsistent(c, address, schema, access);
      var loaded := Read(c, address, schema, access);
      AppRegistry.ApplyKeepsConsistent(loaded.apps, op);
      SavingKeepsConsistent(loaded.cache, address, AppRegistry.Apply(loaded.apps, op), schema, access.writeOk);
    case Reader(address, access) => ReadIsConsistent(c, address, schema, access);
    case OtherTab(_, _) =>
    case Event(_) =>
  }

  /**
   * Whichever reads and writes fail, and whatever other tabs do, every list in memory, in storage and given to a reader
   * has distinct leases and derived statuses.
   */
  lemma {:induction false} RunKeepsConsistentOverStorage(c: Cache<Entry>, steps: seq<Step>, schema: Schema<Entry>,
                                                         address: string, access: Access)
    requires Idempotent(schema) && KeepsRules(schema) && AllConsistent(c, schema)
    requires forall i :: 0 <= i < |steps| ==> Honest(steps[i], schema)
    ensures AllConsistent(Run(c, steps, schema), schema)
    ensures Consistent(Read(Run(c, steps, schema), address, schema, access).apps)
  {
    hide Apply, AllConsistent, Honest, KeepsRules, Idempotent, Consistent, Read;
    if steps != [] {
      var front := steps[..|steps| - 1];
      RunKeepsConsistentOverStorage(c, front, schema, address, access);
      StepKeepsConsistent(Run(c, front, schema), steps[|steps| - 1], schema);
    }
    ReadIsConsistent(Run(c, steps, schema), address, schema, access);
  }
}
