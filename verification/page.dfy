/** The home page's state and handlers: the two in-memory collections, the
    search term, the record being edited and the id awaiting delete
    confirmation; saving, the two-step delete, the search results, the name
    shown in the delete prompt, and the effect that persists a collection. */
module HomePage {
  import opened Wrappers
  import opened Entities
  import opened Collection
  import opened Search
  import opened LocalStorage
  import VendorData

  const CustomersStorageKey: string := "tradeflow_customers"

  /** Shown in the delete notification when the record has no usable name. */
  const CustomerFallbackName: string := "The customer"
  const VendorFallbackName: string := "The vendor"

  datatype Page = Page(
    customers: seq<Customer>,
    vendors: seq<Vendor>,
    searchTerm: string,
    editingCustomer: Option<Customer>,
    editingVendor: Option<Vendor>,
    deletingCustomerId: Option<string>,
    deletingVendorId: Option<string>)

  /** The page after a delete confirmation, with the name the notification
      reports; `None` when the confirmation did nothing. */
  datatype Confirmed = Confirmed(page: Page, deletedName: Option<string>)

  /** A pending id the handlers act on: set and not the empty string. */
  predicate Pending(id: Option<string>) {
    id.Some? && id.value != ""
  }

  /** `record?.name || fallback` for the first record with key `id`. */
  function LabelFor<T>(xs: seq<T>, key: T -> string, name: T -> string, id: string, fallback: string): (r: string)
    ensures forall i :: FirstWith(xs, key, id, i) ==> r == if name(xs[i]) != "" then name(xs[i]) else fallback
    ensures !HasKey(xs, key, id) ==> r == fallback
  {
    match Find(xs, key, id)
    case Some(x) => if name(x) != "" then name(x) else fallback
    case None => fallback
  }

  /** The page's view of the record a delete prompt is about: its name when
      the pending id is set and some record still has it. */
  function PromptName<T>(xs: seq<T>, key: T -> string, name: T -> string, pending: Option<string>): (r: Option<string>)
    ensures r.Some? <==> pending.Some? && HasKey(xs, key, pending.value)
    ensures r.Some? ==> exists i :: FirstWith(xs, key, pending.value, i) && name(xs[i]) == r.value
  {
    if pending.None? then None
    else match Find(xs, key, pending.value)
      case Some(x) => Some(name(x))
      case None => None
  }

  /** `handleSaveCustomer`: the saved record is what a lookup of its id now
      finds, lookups of every other id are unchanged, the collection grows by
      one exactly when the id was new, and nothing but the customers and the
      edit selection changes. */
  function SaveCustomer(p: Page, c: Customer): (r: Page)
    ensures Find(r.customers, CustomerId, c.id) == Some(c)
    ensures forall id :: id != c.id ==> Find(r.customers, CustomerId, id) == Find(p.customers, CustomerId, id)
    ensures |r.customers| == if HasKey(p.customers, CustomerId, c.id) then |p.customers| else |p.customers| + 1
    ensures HasKey(p.customers, CustomerId, c.id) ==>
              exists i :: FirstWith(p.customers, CustomerId, c.id, i) && r.customers == p.customers[i := c]
    ensures !HasKey(p.customers, CustomerId, c.id) ==> r.customers == [c] + p.customers
    ensures r.editingCustomer == None
    ensures r.(customers := p.customers, editingCustomer := p.editingCustomer) == p
  {
    var xs := Upsert(p.customers, c, CustomerId);
    FindAfterUpsert(p.customers, c, CustomerId);
    FindOthersAfterUpsert(p.customers, c, CustomerId);
    p.(customers := xs, editingCustomer := None)
  }

  /** `handleSaveVendor`, with the same guarantees for the vendors. */
  function SaveVendor(p: Page, v: Vendor): (r: Page)
    ensures Find(r.vendors, VendorId, v.id) == Some(v)
    ensures forall id :: id != v.id ==> Find(r.vendors, VendorId, id) == Find(p.vendors, VendorId, id)
    ensures |r.vendors| == if HasKey(p.vendors, VendorId, v.id) then |p.vendors| else |p.vendors| + 1
    ensures HasKey(p.vendors, VendorId, v.id) ==>
              exists i :: FirstWith(p.vendors, VendorId, v.id, i) && r.vendors == p.vendors[i := v]
    ensures !HasKey(p.vendors, VendorId, v.id) ==> r.vendors == [v] + p.vendors
    ensures r.editingVendor == None
    ensures r.(vendors := p.vendors, editingVendor := p.editingVendor) == p
  {
    var xs := Upsert(p.vendors, v, VendorId);
    FindAfterUpsert(p.vendors, v, VendorId);
    FindOthersAfterUpsert(p.vendors, v, VendorId);
    p.(vendors := xs, editingVendor := None)
  }

  /** `handleDeleteCustomer`: only records the candidate id. */
  function RequestDeleteCustomer(p: Page, id: string): (r: Page)
    ensures r.deletingCustomerId == Some(id)
    ensures r.(deletingCustomerId := p.deletingCustomerId) == p
  {
    p.(deletingCustomerId := Some(id))
  }

  /** `handleDeleteVendor`: only records the candidate id. */
  function RequestDeleteVendor(p: Page, id: string): (r: Page)
    ensures r.deletingVendorId == Some(id)
    ensures r.(deletingVendorId := p.deletingVendorId) == p
  {
    p.(deletingVendorId := Some(id))
  }

  /** `confirmDeleteCustomer`. Without a pending id (unset or empty) nothing
      happens. Otherwise no customer with that id remains, the others stay
      in their order, lookups of other ids are unchanged, the pending id is
      cleared, and the notification names the deleted customer or falls back
      to the generic label. */
  function ConfirmDeleteCustomer(p: Page): (r: Confirmed)
    ensures !Pending(p.deletingCustomerId) ==> r == Confirmed(p, None)
    ensures Pending(p.deletingCustomerId) ==>
              var id := p.deletingCustomerId.value;
              && !HasKey(r.page.customers, CustomerId, id)
              && IsSubseq(r.page.customers, p.customers)
              && (forall i :: 0 <= i < |p.customers| && p.customers[i].id != id ==> p.customers[i] in r.page.customers)
              && (forall other :: other != id ==>
                    Find(r.page.customers, CustomerId, other) == Find(p.customers, CustomerId, other))
              && r.page == p.(customers := r.page.customers, deletingCustomerId := None)
              && |r.page.customers| == Count(p.customers, Lacks(CustomerId, id))
              && (forall i :: FirstWith(p.customers, CustomerId, id, i) ==>
                    r.deletedName == Some(if p.customers[i].name != "" then p.customers[i].name else CustomerFallbackName))
              && (!HasKey(p.customers, CustomerId, id) ==> r.deletedName == Some(CustomerFallbackName))
  {
    if !Pending(p.deletingCustomerId) then Confirmed(p, None)
    else
      var id := p.deletingCustomerId.value;
      var name := LabelFor(p.customers, CustomerId, CustomerName, id, CustomerFallbackName);
      var xs := Remove(p.customers, CustomerId, id);
      FindOthersAfterRemove(p.customers, CustomerId, id);
      Confirmed(p.(customers := xs, deletingCustomerId := None), Some(name))
  }

  /** `confirmDeleteVendor`, with the same guarantees for the vendors. */
  function ConfirmDeleteVendor(p: Page): (r: Confirmed)
    ensures !Pending(p.deletingVendorId) ==> r == Confirmed(p, None)
    ensures Pending(p.deletingVendorId) ==>
              var id := p.deletingVendorId.value;
              && !HasKey(r.page.vendors, VendorId, id)
              && IsSubseq(r.page.vendors, p.vendors)
              && (forall i :: 0 <= i < |p.vendors| && p.vendors[i].id != id ==> p.vendors[i] in r.page.vendors)
              && (forall other :: other != id ==>
                    Find(r.page.vendors, VendorId, other) == Find(p.vendors, VendorId, other))
              && r.page == p.(vendors := r.page.vendors, deletingVendorId := None)
              && |r.page.vendors| == Count(p.vendors, Lacks(VendorId, id))
              && (forall i :: FirstWith(p.vendors, VendorId, id, i) ==>
                    r.deletedName == Some(if p.vendors[i].name != "" then p.vendors[i].name else VendorFallbackName))
              && (!HasKey(p.vendors, VendorId, id) ==> r.deletedName == Some(VendorFallbackName))
  {
    if !Pending(p.deletingVendorId) then Confirmed(p, None)
    else
      var id := p.deletingVendorId.value;
      var name := LabelFor(p.vendors, VendorId, VendorName, id, VendorFallbackName);
      var xs := Remove(p.vendors, VendorId, id);
      FindOthersAfterRemove(p.vendors, VendorId, id);
      Confirmed(p.(vendors := xs, deletingVendorId := None), Some(name))
  }

  /** `filteredCustomers`: all customers for an empty term, otherwise the
      matching ones in their order. */
  function FilteredCustomers(p: Page): (r: seq<Customer>)
    ensures p.searchTerm == "" ==> r == p.customers
    ensures IsSubseq(r, p.customers)
    ensures p.searchTerm != "" ==>
              && (forall i :: 0 <= i < |r| ==> Matches(CustomerView(r[i]), p.searchTerm))
              && (forall i :: 0 <= i < |p.customers| && Matches(CustomerView(p.customers[i]), p.searchTerm) ==>
                    p.customers[i] in r)
              && |r| == Count(p.customers, Hits(CustomerView, p.searchTerm))
  {
    Filter(p.customers, p.searchTerm, CustomerView)
  }

  /** `filteredVendors`: all vendors for an empty term, otherwise the
      matching ones in their order. */
  function FilteredVendors(p: Page): (r: seq<Vendor>)
    ensures p.searchTerm == "" ==> r == p.vendors
    ensures IsSubseq(r, p.vendors)
    ensures p.searchTerm != "" ==>
              && (forall i :: 0 <= i < |r| ==> Matches(VendorView(r[i]), p.searchTerm))
              && (forall i :: 0 <= i < |p.vendors| && Matches(VendorView(p.vendors[i]), p.searchTerm) ==>
                    p.vendors[i] in r)
              && |r| == Count(p.vendors, Hits(VendorView, p.searchTerm))
  {
    Filter(p.vendors, p.searchTerm, VendorView)
  }

  /** `customerToDeleteName`: the pending customer's name while it is still
      in the collection, nothing otherwise. */
  function CustomerToDeleteName(p: Page): (r: Option<string>)
    ensures r.Some? <==> p.deletingCustomerId.Some? && HasKey(p.customers, CustomerId, p.deletingCustomerId.value)
    ensures r.Some? ==>
              exists i :: FirstWith(p.customers, CustomerId, p.deletingCustomerId.value, i) && p.customers[i].name == r.value
  {
    PromptName(p.customers, CustomerId, CustomerName, p.deletingCustomerId)
  }

  /** `vendorToDeleteName`: the pending vendor's name while it is still in
      the collection, nothing otherwise. */
  function VendorToDeleteName(p: Page): (r: Option<string>)
    ensures r.Some? <==> p.deletingVendorId.Some? && HasKey(p.vendors, VendorId, p.deletingVendorId.value)
    ensures r.Some? ==>
              exists i :: FirstWith(p.vendors, VendorId, p.deletingVendorId.value, i) && p.vendors[i].name == r.value
  {
    PromptName(p.vendors, VendorId, VendorName, p.deletingVendorId)
  }

  /** The persist effect's guard `list.length > 0 || localStorage.getItem(key)`:
      it skips the save exactly when the list is empty and nothing non-empty
      is stored under the key. */
  function ShouldPersist<T, U>(list: seq<T>, store: map<string, Stored<U>>, key: string): (r: bool)
    ensures !r <==> |list| == 0 && (key !in store || store[key] == Blank)
  {
    var stored := GetItem(store, key);
    |list| > 0 || (stored.Some? && stored.value.Truthy())
  }

  /** The customers persist effect's decision. */
  function PersistCustomersGuard(p: Page, store: map<string, Stored<Customer>>): (r: bool)
    ensures !r <==> p.customers == [] && !HoldsText(store, CustomersStorageKey)
  {
    ShouldPersist(p.customers, store, CustomersStorageKey)
  }

  /** The vendors persist effect, run in the browser after the vendors
      change: skipped when there is nothing to save and nothing stored;
      otherwise `saveVendors`, which (when the write succeeds) stores the
      page's vendors under the vendors key, leaves every other key alone,
      and makes a later read return them. */
  function PersistVendors(p: Page, store: map<string, Stored<Vendor>>, faults: Faults): (r: Env<Vendor>)
    ensures p.vendors == [] && !HoldsText(store, VendorData.VendorsStorageKey) ==> r == Browser(store)
    ensures (p.vendors != [] || HoldsText(store, VendorData.VendorsStorageKey)) && !faults.writeThrows ==>
              && r.Browser? && VendorData.VendorsStorageKey in r.store
              && r.store[VendorData.VendorsStorageKey] == Json(p.vendors)
              && r.store.Keys == store.Keys + {VendorData.VendorsStorageKey}
              && (forall k :: k in store && k != VendorData.VendorsStorageKey ==> r.store[k] == store[k])
    ensures (p.vendors != [] || HoldsText(store, VendorData.VendorsStorageKey)) && !faults.writeThrows ==>
              VendorData.GetVendors(r, NoFaults).vendors == p.vendors
    ensures faults.writeThrows ==> r == Browser(store)
  {
    if !ShouldPersist(p.vendors, store, VendorData.VendorsStorageKey) then Browser(store)
    else
      VendorData.SaveThenGet(p.vendors, store);
      VendorData.SaveVendors(p.vendors, Browser(store), faults)
  }

  /** The whole delete flow: asking to delete an id and confirming removes
      every record with it; the notification names what the prompt showed
      whenever the prompt had a non-empty name; and a second confirmation
      does nothing, since the pending id has been cleared. */
  lemma DeleteCustomerFlow(p: Page, id: string)
    requires id != ""
    ensures var asked := RequestDeleteCustomer(p, id);
            var done := ConfirmDeleteCustomer(asked);
            && !HasKey(done.page.customers, CustomerId, id)
            && (CustomerToDeleteName(asked).Some? && CustomerToDeleteName(asked).value != "" ==>
                  done.deletedName == CustomerToDeleteName(asked))
            && (CustomerToDeleteName(asked).None? ==> done.deletedName == Some(CustomerFallbackName))
            && ConfirmDeleteCustomer(done.page) == Confirmed(done.page, None)
  {
  }

  /** The vendor delete flow, as for customers. */
  lemma DeleteVendorFlow(p: Page, id: string)
    requires id != ""
    ensures var asked := RequestDeleteVendor(p, id);
            var done := ConfirmDeleteVendor(asked);
            && !HasKey(done.page.vendors, VendorId, id)
            && (VendorToDeleteName(asked).Some? && VendorToDeleteName(asked).value != "" ==>
                  done.deletedName == VendorToDeleteName(asked))
            && (VendorToDeleteName(asked).None? ==> done.deletedName == Some(VendorFallbackName))
            && ConfirmDeleteVendor(done.page) == Confirmed(done.page, None)
  {
  }

  /** Saving keeps the ids of each collection distinct. */
  lemma SaveKeepsIdsUnique(p: Page, c: Customer, v: Vendor)
    requires UniqueKeys(p.customers, CustomerId) && UniqueKeys(p.vendors, VendorId)
    ensures UniqueKeys(SaveCustomer(p, c).customers, CustomerId)
    ensures UniqueKeys(SaveVendor(p, v).vendors, VendorId)
  {
    UpsertKeepsUnique(p.customers, c, CustomerId);
    UpsertKeepsUnique(p.vendors, v, VendorId);
  }

  /** Confirming a customer delete keeps the customer ids distinct. */
  lemma ConfirmCustomerKeepsIdsUnique(p: Page)
    requires UniqueKeys(p.customers, CustomerId)
    ensures UniqueKeys(ConfirmDeleteCustomer(p).page.customers, CustomerId)
  {
    if Pending(p.deletingCustomerId) {
      RemoveKeepsUnique(p.customers, CustomerId, p.deletingCustomerId.value);
    }
  }

  /** Confirming a vendor delete keeps the vendor ids distinct. */
  lemma ConfirmVendorKeepsIdsUnique(p: Page)
    requires UniqueKeys(p.vendors, VendorId)
    ensures UniqueKeys(ConfirmDeleteVendor(p).page.vendors, VendorId)
  {
    if Pending(p.deletingVendorId) {
      RemoveKeepsUnique(p.vendors, VendorId, p.deletingVendorId.value);
    }
  }

  /** Loading the vendors into the page and letting the persist effect run
      changes nothing a later read can see: the next read returns the
      vendors the page shows. */
  lemma LoadThenPersist(p: Page, store: map<string, Stored<Vendor>>)
    ensures var loaded := VendorData.GetVendors(Browser(store), NoFaults);
            loaded.env.Browser? &&
            var after := PersistVendors(p.(vendors := loaded.vendors), loaded.env.store, NoFaults);
            VendorData.GetVendors(after, NoFaults).vendors == loaded.vendors
  {
  }
}
