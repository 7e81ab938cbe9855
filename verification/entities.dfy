/** The two record kinds the application manages, the projection the search
    box looks at, and the categorised output of the suggestion service. */
module Entities {
  import opened Wrappers

  /** A customer record; optional fields are `None` when the property is
      missing from the stored object. */
  datatype Customer = Customer(
    id: string,
    name: string,
    email: string,
    phone: Option<string>,
    address: Option<string>,
    notes: Option<string>,
    relatedOrganizations: Option<seq<string>>,
    relatedPeople: Option<seq<string>>,
    relatedVendors: Option<seq<string>>)

  /** A vendor record: the customer fields plus industry and contact person. */
  datatype Vendor = Vendor(
    id: string,
    name: string,
    email: string,
    phone: Option<string>,
    address: Option<string>,
    notes: Option<string>,
    industry: Option<string>,
    contactPersonName: Option<string>,
    relatedOrganizations: Option<seq<string>>,
    relatedPeople: Option<seq<string>>,
    relatedVendors: Option<seq<string>>)

  /** The four fields the search box matches against. */
  datatype SearchView = SearchView(
    name: string,
    email: string,
    phone: Option<string>,
    address: Option<string>)

  /** Output of the suggestion service: three lists of free-text names. */
  datatype Suggestions = Suggestions(
    organizations: seq<string>,
    people: seq<string>,
    vendors: seq<string>)

  /** Which suggestion list an "Add" button belongs to. */
  datatype SuggestionKind = Organizations | People | Vendors

  function CustomerId(c: Customer): string { c.id }
  function VendorId(v: Vendor): string { v.id }
  function CustomerName(c: Customer): string { c.name }
  function VendorName(v: Vendor): string { v.name }

  function CustomerView(c: Customer): SearchView {
    SearchView(c.name, c.email, c.phone, c.address)
  }

  function VendorView(v: Vendor): SearchView {
    SearchView(v.name, v.email, v.phone, v.address)
  }
}
