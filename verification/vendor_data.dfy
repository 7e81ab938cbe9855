/** Vendor persistence in local storage: the collection is kept as one
    serialised array under a fixed key, seeded with sample vendors the first
    time it is read; storage errors are caught and only logged. */
module VendorData {
  import opened Wrappers
  import opened Entities
  import opened LocalStorage
  import opened Collection

  const VendorsStorageKey: string := "tradeflow_vendors"

  /** The sample vendors written on first use: two records (`SeedIdsDistinct`
      shows their ids differ). */
  function InitialSeedVendors(): (r: seq<Vendor>)
    ensures |r| == 2
  {
    [ Vendor(
        "v1a2b3c4-d5e6-f789-0123-456789abcdef",
        "SupplyCo Global",
        "sales@supplyco.global",
        Some("555-0404"),
        Some("789 Logistics Rd, Warehouse City, TX 75001"),
        Some("Bulk supplier of industrial components. Known for reliability."),
        Some("Logistics & Supply Chain"),
        Some("Sarah Connor"),
        Some(["Manufacturing United", "Global Trade Association"]),
        Some(["John Smith (Procurement Head at Client X)"]),
        Some(["Parts Unlimited", "Raw Materials Inc."])),
      Vendor(
        "v0f9e8d7-c6b5-a493-8271-fedcba098765",
        "Creative Design Agency",
        "hello@creativedesign.io",
        Some("555-0505"),
        Some("101 Art Block, Studio City, NY 10001"),
        Some("Specializes in branding and digital marketing for tech startups."),
        Some("Marketing & Advertising"),
        Some("Mike Angelo"),
        Some(["Startup Hub NYC", "Digital Nomads Network"]),
        Some(["Lisa Ray (CEO of Startup Y)"]),
        Some(["PrintFast Co.", "StockPhoto Pro"])) ]
  }

  /** The two sample vendors have different ids, so the seed is a valid
      keyed collection. */
  lemma SeedIdsDistinct()
    ensures UniqueKeys(InitialSeedVendors(), VendorId)
  {
    var r := InitialSeedVendors();
    assert r[0].id[1] != r[1].id[1];
  }

  /** What a read returns, and the environment after it. */
  datatype Loaded = Loaded(vendors: seq<Vendor>, env: Env<Vendor>)

  /** `getVendors()`. On the server: the seed, nothing touched. In the
      browser: the stored collection when one is stored; the seed, written
      under the key, when the key is absent or holds empty text; the seed and
      no write when reading throws or the text does not parse. A failed
      write is swallowed: the seed is still returned and the store is left
      as it was. */
  function GetVendors(env: Env<Vendor>, faults: Faults): (r: Loaded)
    ensures env.Server? ==> r == Loaded(InitialSeedVendors(), env)
    ensures r.vendors == InitialSeedVendors() ||
            (env.Browser? && VendorsStorageKey in env.store
             && env.store[VendorsStorageKey] == Json(r.vendors))
    ensures r.env == env ||
            (env.Browser? && !HoldsText(env.store, VendorsStorageKey)
             && r.vendors == InitialSeedVendors()
             && r.env == Browser(env.store[VendorsStorageKey := Json(InitialSeedVendors())]))
    ensures faults.writeThrows ==> r.env == env
    ensures env.Browser? && faults.readThrows ==> r == Loaded(InitialSeedVendors(), env)
    ensures env.Browser? && !faults.readThrows && VendorsStorageKey in env.store
            && env.store[VendorsStorageKey].Json? ==>
              r == Loaded(env.store[VendorsStorageKey].items, env)
    ensures env.Browser? && !faults.readThrows && !faults.writeThrows
            && !HoldsText(env.store, VendorsStorageKey) ==>
              r == Loaded(InitialSeedVendors(),
                          Browser(env.store[VendorsStorageKey := Json(InitialSeedVendors())]))
  {
    match env
    case Server => Loaded(InitialSeedVendors(), env)
    case Browser(store) =>
      if faults.readThrows then Loaded(InitialSeedVendors(), env)
      else
        var stored := GetItem(store, VendorsStorageKey);
        if stored.Some? && stored.value.Truthy() then
          match stored.value
          case Json(items) => Loaded(items, env)
          case _ => Loaded(InitialSeedVendors(), env)
        else if faults.writeThrows then Loaded(InitialSeedVendors(), env)
        else Loaded(InitialSeedVendors(), Browser(store[VendorsStorageKey := Json(InitialSeedVendors())]))
  }

  /** `saveVendors(vendors)`: in the browser, the serialised collection
      replaces whatever was under the key and nothing else changes; on the
      server, or when the write throws, nothing changes and the caller is
      not told. */
  function SaveVendors(vendors: seq<Vendor>, env: Env<Vendor>, faults: Faults): (r: Env<Vendor>)
    ensures env.Server? || faults.writeThrows ==> r == env
    ensures env.Browser? && !faults.writeThrows ==>
              && r.Browser? && VendorsStorageKey in r.store
              && r.store[VendorsStorageKey] == Json(vendors)
              && r.store.Keys == env.store.Keys + {VendorsStorageKey}
              && forall k :: k in env.store && k != VendorsStorageKey ==> r.store[k] == env.store[k]
  {
    match env
    case Server => env
    case Browser(store) =>
      if faults.writeThrows then env
      else Browser(store[VendorsStorageKey := Json(vendors)])
  }

  /** Reading in the browser with nothing stored writes the seed; a second
      read returns the seed again and writes nothing further. */
  lemma FirstReadSeeds(store: map<string, Stored<Vendor>>)
    requires !HoldsText(store, VendorsStorageKey)
    ensures GetVendors(Browser(store), NoFaults)
            == Loaded(InitialSeedVendors(), Browser(store[VendorsStorageKey := Json(InitialSeedVendors())]))
    ensures var first := GetVendors(Browser(store), NoFaults);
            GetVendors(first.env, NoFaults) == first
  {
  }

  /** Reading is stable: reading again after a successful read returns the
      same collection and leaves the store as the first read left it. */
  lemma ReadTwice(env: Env<Vendor>, faults: Faults)
    ensures var first := GetVendors(env, faults);
            GetVendors(first.env, faults) == first
  {
  }

  /** Saving and then reading gives back exactly what was saved -- also the
      empty collection, whose stored text "[]" is not empty and so does not
      trigger re-seeding. */
  lemma SaveThenGet(vendors: seq<Vendor>, store: map<string, Stored<Vendor>>)
    ensures var saved := SaveVendors(vendors, Browser(store), NoFaults);
            GetVendors(saved, NoFaults) == Loaded(vendors, saved)
  {
  }

  /** A write that throws is invisible: the store is as before and a later
      read sees the old contents. */
  lemma FailedSaveUnseen(vendors: seq<Vendor>, env: Env<Vendor>, readFaults: Faults)
    ensures GetVendors(SaveVendors(vendors, env, Faults(false, true)), readFaults) == GetVendors(env, readFaults)
  {
  }
}
