/** The registry's cache over browser storage, any access of which may fail, and which other tabs write as well. */
module RegistryStorage {
  import opened Options

  /** What storage holds for a wallet: nothing, text that is no list, or a list of entries before validation. */
  datatype Raw<T> = Missing | Garbage | Listed(entries: seq<T>)

  datatype Cache<T> = Cache(storage: map<string, Raw<T>>, memory: map<string, seq<T>>, unsaved: set<string>)

  /** Schema validation of one entry; a validated entry validates to itself. */
  type Schema<!T> = T -> Option<T>

  ghost predicate Idempotent<T(!new)>(schema: Schema<T>) {
    forall x :: schema(x).Some? ==> schema(schema(x).value) == schema(x)
  }

  function Normal<T>(entries: seq<T>, schema: Schema<T>): (r: seq<T>)
    ensures |r| <= |entries|
  {
    if entries == [] then []
    else
      var last := schema(entries[|entries| - 1]);
      Normal(entries[..|entries| - 1], schema) + (if last.Some? then [last.value] else [])
  }

  lemma {:induction false} NormalSettles<T(!new)>(entries: seq<T>, schema: Schema<T>)
    requires Idempotent(schema)
    ensures Normal(Normal(entries, schema), schema) == Normal(entries, schema)
  {
    if entries != [] {
      var front, last := entries[..|entries| - 1], schema(entries[|entries| - 1]);
      NormalSettles(front, schema);
      if last.Some? {
        assert (Normal(front, schema) + [last.value])[..|Normal(front, schema)|] == Normal(front, schema);
      } else {
        assert Normal(front, schema) + [] == Normal(front, schema);
      }
    }
  }

  // ------------------------------------------------------------- the accesses

  function InMemory<T>(c: Cache<T>, address: string): seq<T> {
    if address in c.memory then c.memory[address] else []
  }

  function InStorage<T>(c: Cache<T>, address: string): Raw<T> {
    if address in c.storage then c.storage[address] else Missing
  }

  function Saved<T>(c: Cache<T>, address: string, apps: seq<T>, writeOk: bool): Cache<T> {
    if writeOk then Cache(c.storage[address := Listed(apps)], c.memory[address := apps], c.unsaved - {address})
    else Cache(c.storage, c.memory[address := apps], c.unsaved + {address})
  }

  datatype Loaded<T> = Loaded(cache: Cache<T>, apps: seq<T>)

  /** A read: `readOk` and `writeOk` say whether storage works this time. */
  function Load<T>(c: Cache<T>, address: string, schema: Schema<T>, readOk: bool, writeOk: bool): Loaded<T> {
    if address in c.unsaved || !readOk then Loaded(c, InMemory(c, address))
    else
      match InStorage(c, address)
      case Missing => Loaded(c.(memory := c.memory - {address}), [])
      case Garbage =>
        Loaded(c.(memory := c.memory - {address}, storage := if writeOk then c.storage - {address} else c.storage), [])
      case Listed(entries) =>
        var valid := Normal(entries, schema);
        var cleaned := if |valid| != |entries| then Saved(c, address, valid, writeOk) else c;
        Loaded(cleaned.(memory := cleaned.memory[address := valid]), valid)
  }

  /**
   * What a read that works makes of storage: nothing where there is nothing or no list, and then no copy in memory;
   * the valid entries of a list, which replace it in storage when some were not valid.
   */
  lemma LoadTells<T(!new)>(c: Cache<T>, address: string, schema: Schema<T>, writeOk: bool)
    requires address !in c.unsaved
    ensures var r := Load(c, address, schema, true, writeOk);
            match InStorage(c, address)
            case Missing => r.apps == [] && address !in r.cache.memory && r.cache.storage == c.storage
            case Garbage =>
              && r.apps == [] && address !in r.cache.memory
              && (if writeOk then r.cache.storage == c.storage - {address} else r.cache.storage == c.storage)
            case Listed(entries) =>
              && r.apps == Normal(entries, schema) && r.cache.memory == c.memory[address := r.apps]
              && (|r.apps| == |entries| ==> r.cache.storage == c.storage && r.cache.unsaved == c.unsaved)
              && (|r.apps| != |entries| ==>
                    if writeOk then r.cache.storage == c.storage[address := Listed(r.apps)]
                    else r.cache.storage == c.storage && address in r.cache.unsaved)
    ensures forall readOk :: Load(c.(unsaved := c.unsaved + {address}), address, schema, readOk, writeOk).apps
                             == if address in c.memory then c.memory[address] else []
  {
    hide Normal;
  }

  lemma {:induction false} NormalTells<T(!new)>(entries: seq<T>, schema: Schema<T>, x: T)
    ensures x in Normal(entries, schema) <==> exists e :: e in entries && schema(e) == Some(x)
    ensures (forall e :: e in entries ==> schema(e) == Some(e)) ==> Normal(entries, schema) == entries
  {
    if entries != [] {
      var front, last := entries[..|entries| - 1], entries[|entries| - 1];
      NormalTells(front, schema, x);
      assert entries == front + [last];
    }
  }

  /** Another tab's write was announced. A list that is not saved here stays. */
  function Announced<T>(c: Cache<T>, address: string): Cache<T> {
    if address in c.unsaved then c else c.(memory := c.memory - {address})
  }

  datatype Op<T> =
    | Save(address: string, apps: seq<T>, writeOk: bool)
    | Read(address: string, readOk: bool, writeOk: bool)
    | RemoteWrite(address: string, raw: Raw<T>)
    | StorageEvent(address: string)

  function Apply<T>(c: Cache<T>, op: Op<T>, schema: Schema<T>): Cache<T> {
    match op
    case Save(address, apps, writeOk) => Saved(c, address, apps, writeOk)
    case Read(address, readOk, writeOk) => Load(c, address, schema, readOk, writeOk).cache
    case RemoteWrite(address, raw) => c.(storage := c.storage[address := raw])
    case StorageEvent(address) => Announced(c, address)
  }

  function Run<T>(c: Cache<T>, ops: seq<Op<T>>, schema: Schema<T>): Cache<T> {
    if ops == [] then c else Apply(Run(c, ops[..|ops| - 1], schema), ops[|ops| - 1], schema)
  }

  // ------------------------------------------------------------- reads return the last saved list

  /** The list last saved is in memory, and in storage unless saving it failed. */
  ghost predicate Holds<T>(c: Cache<T>, address: string, apps: seq<T>, schema: Schema<T>) {
    && address in c.memory && Normal(c.memory[address], schema) == Normal(apps, schema)
    && (address !in c.unsaved ==>
          InStorage(c, address).Listed? && Normal(InStorage(c, address).entries, schema) == Normal(apps, schema))
  }

  /** Operations of this tab that do not save a new list for the address, and other tabs minding other addresses. */
  predicate Leaves<T>(op: Op<T>, address: string) {
    match op
    case Save(a, _, _) => a != address
    case Read(_, _, _) => true
    case RemoteWrite(a, _) => a != address
    case StorageEvent(a) => a != address
  }

  lemma SavedHolds<T(!new)>(c: Cache<T>, address: string, apps: seq<T>, schema: Schema<T>, writeOk: bool)
    ensures Holds(Saved(c, address, apps, writeOk), address, apps, schema)
  {
  }

  lemma StillHolds<T(!new)>(c: Cache<T>, op: Op<T>, address: string, apps: seq<T>, schema: Schema<T>)
    requires Idempotent(schema) && Holds(c, address, apps, schema) && Leaves(op, address)
    ensures Holds(Apply(c, op, schema), address, apps, schema)
  {
    hide Normal;
    if op.Read? && InStorage(c, op.address).Listed? {
      NormalSettles(InStorage(c, op.address).entries, schema);
    }
  }

  lemma HeldIsRead<T(!new)>(c: Cache<T>, address: string, apps: seq<T>, schema: Schema<T>, readOk: bool, writeOk: bool)
    requires Idempotent(schema) && Holds(c, address, apps, schema)
    ensures Normal(Load(c, address, schema, readOk, writeOk).apps, schema) == Normal(apps, schema)
  {
    hide Normal;
    if InStorage(c, address).Listed? {
      NormalSettles(InStorage(c, address).entries, schema);
    }
  }

  /** Whichever reads and writes fail, a read returns the list this tab saved last, up to schema normalisation. */
  lemma {:induction false} ReadsReturnLastSave<T(!new)>(c: Cache<T>, address: string, apps: seq<T>, saveOk: bool,
                                                        ops: seq<Op<T>>,
                                               schema: Schema<T>, readOk: bool, writeOk: bool)
    requires Idempotent(schema) && forall i :: 0 <= i < |ops| ==> Leaves(ops[i], address)
    ensures var now := Run(Saved(c, address, apps, saveOk), ops, schema);
            && Holds(now, address, apps, schema)
            && Normal(Load(now, address, schema, readOk, writeOk).apps, schema) == Normal(apps, schema)
  {
    hide Apply, Holds, Load, Normal;
    if ops == [] {
      SavedHolds(c, address, apps, schema, saveOk);
    } else {
      var front := ops[..|ops| - 1];
      ReadsReturnLastSave(c, address, apps, saveOk, front, schema, readOk, writeOk);
      StillHolds(Run(Saved(c, address, apps, saveOk), front, schema), ops[|ops| - 1], address, apps, schema);
    }
    HeldIsRead(Run(Saved(c, address, apps, saveOk), ops, schema), address, apps, schema, readOk, writeOk);
  }

  // ------------------------------------------------------------- other tabs

  /** Nothing but a save of this tab, not even another tab's writes and events, touches a list still unsaved here. */
  lemma {:induction false} UnsavedSurvives<T(!new)>(c: Cache<T>, address: string, ops: seq<Op<T>>, schema: Schema<T>,
                                                    readOk: bool, writeOk: bool)
    requires address in c.unsaved && address in c.memory
    requires forall i :: 0 <= i < |ops| ==> !(ops[i].Save? && ops[i].address == address)
    ensures var now := Run(c, ops, schema);
            && address in now.unsaved && address in now.memory && now.memory[address] == c.memory[address]
            && Load(now, address, schema, readOk, writeOk) == Loaded(now, c.memory[address])
  {
    hide Normal;
    if ops != [] {
      UnsavedSurvives(c, address, ops[..|ops| - 1], schema, readOk, writeOk);
    }
  }

  /**
   * An event for a write of another tab that arrives after this tab's own save: a read that then fails still returns
   * the saved list exactly when that list was not saved to storage.
   */
  lemma LateEvent<T(!new)>(c: Cache<T>, address: string, apps: seq<T>, schema: Schema<T>)
    requires Idempotent(schema) && Holds(c, address, apps, schema) && Normal(apps, schema) != []
    ensures Normal(Load(Announced(c, address), address, schema, false, true).apps, schema) == Normal(apps, schema)
       <==> address in c.unsaved
  {
    NormalOfNothing(schema);
    hide Normal;
  }

  lemma NormalOfNothing<T(!new)>(schema: Schema<T>)
    ensures Normal([], schema) == []
  {
  }

  // ------------------------------------------------------------- the cache as an object

  const STORAGE_KEY_PREFIX := "barney-apps-"

  /** The wallet a storage key belongs to; keys of other parts of the application belong to none. */
  function AddressOf(key: string): (address: Option<string>)
    ensures address.Some? ==> address.value != "" && key == STORAGE_KEY_PREFIX + address.value
    ensures address.None? ==> forall a :: a != "" ==> key != STORAGE_KEY_PREFIX + a
  {
    if STORAGE_KEY_PREFIX < key then Some(key[|STORAGE_KEY_PREFIX|..]) else None
  }

  /** `saved` remembers, for the proofs only, which lists of this tab nobody else has overwritten since. */
  class RegistryCache<T(!new)> {
    const schema: Schema<T>
    var storage: map<string, Raw<T>>
    var memory: map<string, seq<T>>
    var unsaved: set<string>
    ghost var saved: map<string, seq<T>>

    ghost function State(): Cache<T>
      reads this
    {
      Cache(storage, memory, unsaved)
    }

    /** Every list on record is in memory, and in storage unless saving it failed. */
    ghost predicate Valid()
      reads this
    {
      Idempotent(schema) && forall a :: a in saved ==> Holds(State(), a, saved[a], schema)
    }

    constructor (schema: Schema<T>, storage: map<string, Raw<T>>)
      requires Idempotent(schema)
      ensures Valid() && State() == Cache(storage, map[], {}) && this.schema == schema && saved == map[]
    {
      this.schema, this.storage, memory, unsaved := schema, storage, map[], {};
      saved := map[];
    }

    /** Memory always takes the list; it counts as unsaved until a write to storage succeeds. */
    method SaveApps(address: string, apps: seq<T>, writeOk: bool)
      requires Valid()
      modifies this
      ensures Valid() && State() == Apply(old(State()), Save(address, apps, writeOk), schema)
      ensures saved == old(saved)[address := apps]
    {
      hide Holds, Normal, Idempotent;
      SavedHolds(State(), address, apps, schema, writeOk);
      forall a | a in saved && a != address
        ensures Holds(Apply(State(), Save(address, apps, writeOk), schema), a, saved[a], schema)
      {
        StillHolds(State(), Save(address, apps, writeOk), a, saved[a], schema);
      }
      Write(address, apps, writeOk);
      saved := saved[address := apps];
    }

    method Write(address: string, apps: seq<T>, writeOk: bool)
      modifies `storage, `memory, `unsaved
      ensures State() == Saved(old(State()), address, apps, writeOk)
    {
      memory := memory[address := apps];
      if writeOk {
        storage := storage[address := Listed(apps)];
        unsaved := unsaved - {address};
      } else {
        unsaved := unsaved + {address};
      }
    }

    /** A list on record is what a read returns, whichever accesses fail. */
    method LoadApps(address: string, readOk: bool, writeOk: bool) returns (apps: seq<T>)
      requires Valid()
      modifies this
      ensures Valid() && Loaded(State(), apps) == Load(old(State()), address, schema, readOk, writeOk)
      ensures saved == old(saved)
      ensures address in saved ==> Normal(apps, schema) == Normal(saved[address], schema)
    {
      hide Holds, Normal, Idempotent;
      forall a | a in saved ensures Holds(Apply(State(), Read(address, readOk, writeOk), schema), a, saved[a], schema) {
        StillHolds(State(), Read(address, readOk, writeOk), a, saved[a], schema);
      }
      if address in saved {
        HeldIsRead(State(), address, saved[address], schema, readOk, writeOk);
      }
      apps := ReadApps(address, readOk, writeOk);
    }

    method ReadApps(address: string, readOk: bool, writeOk: bool) returns (apps: seq<T>)
      modifies `storage, `memory, `unsaved
      ensures Loaded(State(), apps) == Load(old(State()), address, schema, readOk, writeOk)
    {
      if address in unsaved {
        return if address in memory then memory[address] else [];
      }
      if !readOk {
        return if address in memory then memory[address] else [];
      }
      var raw := if address in storage then storage[address] else Missing;
      match raw {
        case Missing =>
          memory := memory - {address};
          apps := [];
        case Garbage =>
          memory := memory - {address};
          if writeOk {
            storage := storage - {address};
          }
          apps := [];
        case Listed(entries) =>
          apps := Normal(entries, schema);
          if |apps| != |entries| {
            Write(address, apps, writeOk);
          }
          memory := memory[address := apps];
      }
    }

    /** Another tab writes. Only a list that is not unsaved here is given up by that. */
    method OtherTabWrites(address: string, raw: Raw<T>)
      requires Valid()
      modifies this
      ensures Valid() && State() == Apply(old(State()), RemoteWrite(address, raw), schema)
      ensures saved == if address in unsaved then old(saved) else old(saved) - {address}
    {
      hide Normal, Idempotent;
      storage := storage[address := raw];
      if address !in unsaved {
        saved := saved - {address};
      }
    }

    /**
     * A storage event, with whether both snapshots show the same. Subscribers of a wallet are told exactly when the key
     * is that wallet's, nothing is unsaved here for it, and something visible changed.
     */
    method HandleStorageEvent(key: Option<string>, ownArea: bool, sameVisible: bool) returns (notified: Option<string>)
      requires Valid()
      modifies this
      ensures Valid()
      ensures forall a :: notified == Some(a) <==>
                ownArea && a != "" && key == Some("barney-apps-" + a) && a !in unsaved && !sameVisible
      ensures var address := if ownArea && key.Some? then AddressOf(key.value) else None;
              if address.None? then State() == old(State()) && saved == old(saved)
              else
                && State() == Apply(old(State()), StorageEvent(address.value), schema)
                && saved == if address.value in old(unsaved) then old(saved) else old(saved) - {address.value}
    {
      hide Holds, Normal, Idempotent;
      if !ownArea || key.None? || AddressOf(key.value).None? {
        return None;
      }
      var address := AddressOf(key.value).value;
      if address in unsaved {
        return None;
      }
      forall a | a in saved && a != address
        ensures Holds(Apply(State(), StorageEvent(address), schema), a, saved[a], schema)
      {
        StillHolds(State(), StorageEvent(address), a, saved[a], schema);
      }
      memory := memory - {address};
      saved := saved - {address};
      return if sameVisible then None else Some(address);
    }
  }
}
