# TradeFlow customer and vendor book, modelled in Dafny

TradeFlow is a small web app that keeps two address books: customers and
vendors. The home page holds both collections in memory. It lets the user
create or edit a record through a form dialog and delete one after a
confirmation step. A search box filters the shown collection. Each
collection is persisted to the browser's `localStorage`. Vendors are read
through a helper that seeds two sample records the first time nothing is
stored. The form dialogs pre-fill an edited record, joining its
related-entity lists into comma-separated text. On submit they parse that
text back into lists. They can also ask a suggestion service for related
organisations, people and vendors, and append a chosen suggestion to the
matching field.

The model is functional. Records are immutable datatypes, collections are
sequences, and every handler is a pure function from the old state to the
new one. Storage is a map from key to stored text, placed in an environment
that is either the server (no storage) or the browser. Whether a storage
call throws is an explicit input.

Modules, one per file:

- `Wrappers`: `Option` and `Result`.
- `Entities`: `Customer`, `Vendor` and the suggestion record.
- `Text`: the JavaScript string primitives the code relies on. These are `trim`, `split`, `join`, `includes` and `toLowerCase`.
- `RelatedList`: the comma-list codec of the forms.
- `Collection`: find, upsert and remove over a keyed sequence.
- `Search`: the case-insensitive search filter.
- `LocalStorage`: the key/value store and the environment.
- `VendorData`: reading and saving vendors.
- `HomePage`: the page state and its handlers.
- `FormFields`: the helpers and validation rules both dialogs share.
- `CustomerForm` and `VendorForm`: the two dialogs.

A few JavaScript truthiness rules are followed exactly as the code has them:

- A pending delete id of `""` is treated like no id.
- `customer?.id || crypto.randomUUID()` takes the fresh id when the edited record's id is `""`.
- A stored `""` counts as nothing stored, both when vendors are read and in the persist guard. So the persist step is skipped when the list is empty and the key is absent *or holds empty text*.
- A record with an empty name is announced by the generic label when it is deleted.

## Model

| member | source | states |
|---|---|---|
| Collection.FindIndex | src/app/page.tsx:81 | `findIndex`: the index of the first record with the key, or none exactly when no record has it |
| Collection.Find | src/app/page.tsx:105 | `find`: the first record with the key, or none exactly when no record has it |
| Collection.Upsert | src/app/page.tsx:80-88 | a present key: the first match overwritten in place (`xs[i := x]` at that first index), same length, every other index untouched; an absent key: exactly the new record prepended |
| Collection.Keep | src/app/page.tsx:161-166 | `filter`: an order-preserving subsequence holding every element that passes and nothing else; its length is the number that pass |
| Collection.Remove | src/app/page.tsx:106 | no record with the key remains; every other record is kept, in order |
| Collection.RemoveIdempotent | src/app/page.tsx:106 | removing a key twice is the same as once |
| Collection.RemoveAbsent | src/app/page.tsx:106 | removing a key no record has changes nothing |
| Collection.KeepAll | src/app/page.tsx:161-166 | filtering with a test every element passes returns the collection |
| Collection.KeepIdempotent | src/app/page.tsx:161-166 | filtering twice with the same test is filtering once |
| Collection.KeepCongruent | src/app/page.tsx:161-166 | two tests that agree on every element filter alike |
| Collection.SubseqRefl | src/app/page.tsx:160 | a collection is a subsequence of itself |
| Collection.FindAfterUpsert | src/app/page.tsx:80-88 | after an upsert, a lookup of the saved key finds the saved record |
| Collection.FindOtherAfterUpsert | src/app/page.tsx:80-88 | after an upsert, a lookup of one other key is unchanged |
| Collection.FindOtherAfterReplace | src/app/page.tsx:82-85 | overwriting a record in place, neither old nor new having key `id`, keeps the lookup of `id` |
| Collection.FindOtherAfterPrepend | src/app/page.tsx:86-88 | prepending a record whose key is not `id` keeps the lookup of `id` |
| Collection.FindOthersAfterUpsert | src/app/page.tsx:80-88 | after an upsert, lookups of all other keys are unchanged |
| Collection.FirstWithUnique | src/app/page.tsx:81 | there is at most one first index holding a key |
| Collection.FindOtherAfterRemove | src/app/page.tsx:106 | after a removal, a lookup of one other key is unchanged |
| Collection.FindOthersAfterRemove | src/app/page.tsx:106 | after a removal, lookups of all other keys are unchanged |
| Collection.FindCons | src/app/page.tsx:87 | a lookup in a collection with a record prepended finds that record for its key and searches the rest otherwise |
| Collection.UpsertKeepsUnique | src/app/page.tsx:80-88 | an upsert keeps keys distinct |
| Collection.KeepKeepsUnique | src/app/page.tsx:106 | filtering keeps keys distinct |
| Collection.RemoveKeepsUnique | src/app/page.tsx:106 | a removal keeps keys distinct |
| HomePage.SaveCustomer | src/app/page.tsx:79-96 | `handleSaveCustomer`: an existing id is overwritten in place at its first position; a new id puts the record in front; so the saved id now finds the saved record, other ids' lookups are unchanged and the count grows by one exactly when the id was new; the edit selection is cleared; nothing else changes |
| HomePage.SaveVendor | src/app/page.tsx:122-139 | the same for `handleSaveVendor`: in place at the first match, or prepended |
| HomePage.RequestDeleteCustomer | src/app/page.tsx:98-101 | only the pending customer id is set |
| HomePage.RequestDeleteVendor | src/app/page.tsx:141-144 | only the pending vendor id is set |
| HomePage.ConfirmDeleteCustomer | src/app/page.tsx:103-114 | no pending id (unset or empty): nothing changes and nothing is announced; otherwise no customer with the id remains, the rest are kept in order, as many as do not have the id, with their lookups unchanged; the pending id is cleared; the announcement is the first match's name when non-empty, else "The customer", also when no customer has the id |
| HomePage.ConfirmDeleteVendor | src/app/page.tsx:146-157 | the same for vendors, with the fallback "The vendor" |
| HomePage.LabelFor | src/app/page.tsx:105-109 | `record?.name \|\| fallback`: the first matching record's non-empty name, else the fallback, also when no record matches |
| HomePage.PromptName | src/app/page.tsx:179-180 | a name exactly when the pending id is set and a record has it, and then that record's name |
| HomePage.FilteredCustomers | src/app/page.tsx:159-167 | an empty term: all customers; otherwise an order-preserving subsequence of exactly the matching customers, as many as match |
| HomePage.FilteredVendors | src/app/page.tsx:169-177 | the same for vendors |
| HomePage.CustomerToDeleteName | src/app/page.tsx:179 | present exactly when the pending id is set and a customer has it, and then the name of the first customer with that id |
| HomePage.VendorToDeleteName | src/app/page.tsx:180 | the same for vendors: the first vendor with the pending id |
| HomePage.ShouldPersist | src/app/page.tsx:51 | the persist guard is false exactly when the list is empty and nothing non-empty is stored under the key |
| HomePage.PersistCustomersGuard | src/app/page.tsx:50-54 | the customers effect skips its save exactly when there are no customers and nothing is stored |
| HomePage.PersistVendors | src/app/page.tsx:57-61 | skipped: the store is untouched; otherwise, with a successful write, the vendors key holds the page's vendors, no other key is added, changed or removed, and a later read returns the page's vendors; a failed write leaves the store untouched |
| HomePage.DeleteCustomerFlow | src/app/page.tsx:98-114 | asking and then confirming removes the id; the announcement repeats the prompt's non-empty name, or gives the fallback when the prompt had none; a second confirmation does nothing |
| HomePage.DeleteVendorFlow | src/app/page.tsx:141-157 | the same for vendors |
| HomePage.SaveKeepsIdsUnique | src/app/page.tsx:80-88 | saving keeps the ids of both collections distinct |
| HomePage.ConfirmCustomerKeepsIdsUnique | src/app/page.tsx:106 | confirming a customer delete keeps the customer ids distinct |
| HomePage.ConfirmVendorKeepsIdsUnique | src/app/page.tsx:149 | confirming a vendor delete keeps the vendor ids distinct |
| HomePage.LoadThenPersist | src/app/page.tsx:44-61 | loading vendors and letting the persist effect run leaves a store whose next read gives the loaded vendors |
| Search.Filter | src/app/page.tsx:159-167 | an empty term: the input; otherwise exactly the matching records, in order, counted |
| Search.Matches | src/app/page.tsx:161-166 | the lower-cased term in the lower-cased name, email, set phone or set address; an empty term matches every record; `Search.MatchesIgnoresCase` and `Search.NameHitIsFound` state its behaviour |
| Search.FilterIdempotent | src/app/page.tsx:159-167 | filtering the filtered list again changes nothing |
| Search.MatchesIgnoresCase | src/app/page.tsx:162-165 | a record matches a term exactly when it matches the term lower-cased |
| Search.FilterIgnoresCase | src/app/page.tsx:161-166 | the term and its lower-cased form select the same records |
| Search.NameHitIsFound | src/app/page.tsx:162 | a record whose lower-cased name contains the lower-cased term is in the result |
| Text.TrimStartSpec | src/components/customers/customer-form-dialog.tsx:84 | the leading-whitespace pass cuts off only whitespace, keeps a suffix, and leaves no leading whitespace |
| Text.TrimEndSpec | src/components/customers/customer-form-dialog.tsx:84 | the trailing-whitespace pass cuts off only whitespace, keeps a prefix, and leaves no trailing whitespace |
| Text.Trim | src/components/customers/customer-form-dialog.tsx:84 | `trim`: no whitespace left at either end, never longer than the input |
| Text.TrimPadded | src/components/customers/customer-form-dialog.tsx:84 | the trimmed text is a contiguous slice of the input with only whitespace before and after it |
| Text.TrimBoundsTrimmed | src/components/customers/customer-form-dialog.tsx:84 | trimming the end of a start-trimmed text leaves no outer whitespace |
| Text.TrimBoundsPadded | src/components/customers/customer-form-dialog.tsx:84 | the trimmed text sits inside the input with only whitespace around it |
| Text.SliceOfSuffix | src/components/customers/customer-form-dialog.tsx:84 | a slice of a suffix is a slice of the whole |
| Text.TrimOfTrimmed | src/components/customers/customer-form-dialog.tsx:84 | trimming text with no outer whitespace returns it |
| Text.TrimLeadingSpace | src/components/customers/customer-form-dialog.tsx:84 | a space before the text does not change its trim |
| Text.SliceAvoids | src/components/customers/customer-form-dialog.tsx:84 | a slice of text without a character is also without it |
| Text.Split | src/components/customers/customer-form-dialog.tsx:84 | `split(',')`: at least one piece (`"".split` gives `[""]`), none holding the separator |
| Text.SplitNoSep | src/components/customers/customer-form-dialog.tsx:84 | text without the separator splits into itself alone |
| Text.SplitSep | src/components/customers/customer-form-dialog.tsx:84 | a leading separator gives an empty first piece before the pieces of the rest |
| Text.SplitCons | src/components/customers/customer-form-dialog.tsx:84 | a leading non-separator character joins the first piece |
| Text.ExtendAppend | src/components/customers/customer-form-dialog.tsx:84 | adding a character to the first piece commutes with appending further pieces |
| Text.JoinSplit | src/components/customers/customer-form-dialog.tsx:64-84 | joining the pieces of a split with the separator restores the text |
| Text.Join | src/components/customers/customer-form-dialog.tsx:64-66 | `join(sep)`: no pieces join to ""; `Text.JoinEnds` gives its ends and `Text.JoinSplit` states that it undoes `split` |
| Text.JoinEnds | src/components/customers/customer-form-dialog.tsx:64-66 | one piece joins to itself; the first piece starts the joined text and the last piece ends it |
| Text.SplitAround | src/components/customers/customer-form-dialog.tsx:84 | splitting `a + sep + b` gives the pieces of `a` followed by those of `b` |
| Text.Lower | src/app/page.tsx:162 | `toLowerCase`: same length, each character lowered |
| Text.LowerIdempotent | src/app/page.tsx:162 | lowering twice is lowering once |
| Text.Contains | src/app/page.tsx:162 | `includes`: true exactly when the needle occurs at some position |
| Text.OccursShift | src/app/page.tsx:162 | an occurrence in the tail of a text is an occurrence in the text one position later |
| RelatedList.TrimAvoids | src/components/customers/customer-form-dialog.tsx:84 | trimming text without a comma leaves no comma |
| RelatedList.TidyClean | src/components/customers/customer-form-dialog.tsx:84 | `map(trim).filter(Boolean)` over comma-free pieces yields clean items only |
| RelatedList.Tidy | src/components/customers/customer-form-dialog.tsx:84 | `.map(s => s.trim()).filter(Boolean)`: never more items than pieces; `RelatedList.TidyClean` and `RelatedList.TidyAppend` state what the items are |
| RelatedList.TidyCons | src/components/customers/customer-form-dialog.tsx:84 | one step of `map(trim).filter(Boolean)`: a piece that trims to "" is dropped, any other is kept trimmed |
| RelatedList.TrimClean | src/components/customers/customer-form-dialog.tsx:84 | a comma-free piece that does not trim to "" trims to a clean item |
| RelatedList.TidyExtendSpace | src/components/customers/customer-form-dialog.tsx:84 | a space in front of the first piece is trimmed away again |
| RelatedList.TrimEmptyAllSpace | src/components/customers/customer-form-dialog.tsx:84 | text that trims to "" is all whitespace |
| RelatedList.TidyAppend | src/components/customers/customer-form-dialog.tsx:84 | tidying two runs of pieces is tidying each |
| RelatedList.BlankParsesEmpty | src/components/customers/customer-form-dialog.tsx:84 | text of commas and whitespace only parses to no items |
| RelatedList.AllSpaceTidies | src/components/customers/customer-form-dialog.tsx:84 | pieces that are all whitespace tidy to no items |
| RelatedList.AllSpaceTrims | src/components/customers/customer-form-dialog.tsx:84 | whitespace-only text trims to "" |
| RelatedList.ParseList | src/components/customers/customer-form-dialog.tsx:84-86 | every parsed item is non-empty, trimmed and comma-free |
| RelatedList.ParseField | src/components/customers/customer-form-dialog.tsx:84-86 | `field?.split(...)... \|\| []`: clean items; an unset or empty field gives [] |
| RelatedList.JoinField | src/components/customers/customer-form-dialog.tsx:64-66 | `list?.join(', ') \|\| ''`: an unset or empty list gives "" |
| RelatedList.AppendSuggestion | src/components/customers/customer-form-dialog.tsx:120-124 | an empty or unset field becomes the suggestion alone; otherwise the result starts with the old text and ends with the suggestion |
| RelatedList.ParseAround | src/components/customers/customer-form-dialog.tsx:84 | parsing `a + ", " + b` gives the items of `a` then those of `b` |
| RelatedList.ParseLeadingSpace | src/components/customers/customer-form-dialog.tsx:84 | a leading space does not change a parse |
| RelatedList.ParseClean | src/components/customers/customer-form-dialog.tsx:84 | a clean item parses to itself alone |
| RelatedList.ParseJoin | src/components/customers/customer-form-dialog.tsx:64-86 | clean items survive a join with ", " and a parse unchanged |
| RelatedList.JoinList | src/components/customers/customer-form-dialog.tsx:64-66 | `join(', ')`: no items show as "", one item as itself; `RelatedList.ParseJoin` states that parsing undoes it for clean items |
| RelatedList.FieldRoundTrip | src/components/customers/customer-form-dialog.tsx:64-86 | a stored list pre-filled into the form and submitted comes back the same (an unset list as []) |
| RelatedList.ParseIdempotent | src/components/customers/customer-form-dialog.tsx:84-86 | parsing, joining and parsing again gives the first parse |
| RelatedList.AppendParses | src/components/customers/customer-form-dialog.tsx:120-124 | after appending a clean suggestion the field parses to its old items followed by the suggestion |
| FormFields.OrBlank | src/components/customers/customer-form-dialog.tsx:61-63 | `value \|\| ''`: always set; a set value is kept and an unset one becomes "" |
| FormFields.Validate | src/components/customers/customer-form-dialog.tsx:33-35 | a name shorter than 2 is reported exactly when it is short, and the email exactly when it is rejected |
| CustomerForm.DefaultValues | src/components/customers/customer-form-dialog.tsx:58-67 | no customer: every field ""; an edited customer: its name and email, its optional fields or "", its lists as set text |
| CustomerForm.ChooseId | src/components/customers/customer-form-dialog.tsx:82 | the edited customer's non-empty id is kept; otherwise the fresh id |
| CustomerForm.Submit | src/components/customers/customer-form-dialog.tsx:80-90 | `onSubmit`: a non-empty edited id is kept, and a new record or an edited one with id "" gets the fresh id; name, email, phone, address and notes passed through; every list set and clean; an unset or empty field gives [] for each of the three lists |
| CustomerForm.HandleSubmit | src/components/customers/customer-form-dialog.tsx:138 | a record reaches the page exactly when the name has at least 2 characters and the email is accepted; otherwise the failing fields are reported |
| CustomerForm.SuggestionRequest | src/components/customers/customer-form-dialog.tsx:92-101 | no request exactly when name and notes are both empty; the prompt starts with "Name: " and the name |
| CustomerForm.GetSuggestions | src/components/customers/customer-form-dialog.tsx:92-118 | the form values never change; a blocked request changes nothing; otherwise the panel shows the service's answer, or none on failure |
| CustomerForm.AddSuggestion | src/components/customers/customer-form-dialog.tsx:120-124 | the field of the suggestion's kind gets it appended; all other fields are kept |
| CustomerForm.AddThenSubmit | src/components/customers/customer-form-dialog.tsx:223-227 | after adding a clean suggestion, submission stores the old items of that list plus the suggestion, and the other lists unchanged |
| CustomerForm.EditRoundTrip | src/components/customers/customer-form-dialog.tsx:58-87 | opening a customer with a non-empty id and clean lists for edit and submitting saves the same customer, unset fields becoming "" or [] |
| VendorForm.DefaultValues | src/components/vendors/vendor-form-dialog.tsx:62-73 | as for customers, with industry and contact person |
| VendorForm.ChooseId | src/components/vendors/vendor-form-dialog.tsx:87 | the edited vendor's non-empty id is kept; otherwise the fresh id |
| VendorForm.Submit | src/components/vendors/vendor-form-dialog.tsx:85-95 | as for customers, the id rule and the [] rule for all three lists included; industry and contact person passed through unchanged |
| VendorForm.HandleSubmit | src/components/vendors/vendor-form-dialog.tsx:142 | a record reaches the page exactly when the name has at least 2 characters and the email is accepted |
| VendorForm.SuggestionRequest | src/components/vendors/vendor-form-dialog.tsx:97-106 | no request exactly when name and notes are both empty; the prompt starts with "Vendor Name: " and the name |
| VendorForm.GetSuggestions | src/components/vendors/vendor-form-dialog.tsx:97-123 | as for customers |
| VendorForm.AddSuggestion | src/components/vendors/vendor-form-dialog.tsx:125-129 | the field of the suggestion's kind gets it appended; all other fields are kept |
| VendorForm.AddThenSubmit | src/components/vendors/vendor-form-dialog.tsx:255-259 | as for customers |
| VendorForm.EditRoundTrip | src/components/vendors/vendor-form-dialog.tsx:62-92 | as for customers, industry and contact person included |
| LocalStorage.GetItem | src/lib/vendor-data.ts:41 | `getItem`: the stored text exactly when the key is present |
| VendorData.InitialSeedVendors | src/lib/vendor-data.ts:7-34 | exactly two sample vendors |
| VendorData.SeedIdsDistinct | src/lib/vendor-data.ts:7-34 | the two sample vendors have different ids |
| VendorData.GetVendors | src/lib/vendor-data.ts:36-52 | server: the seed, store untouched; a throwing read: the seed; stored text: the stored collection, store untouched; nothing stored: the seed, also written when the write succeeds; a throwing seed write: the seed, store untouched; unparseable text: the seed, no write |
| VendorData.SaveVendors | src/lib/vendor-data.ts:54-62 | browser: the key now holds the collection and every other key is kept; server or a throwing write: nothing changes |
| VendorData.FirstReadSeeds | src/lib/vendor-data.ts:41-46 | an empty store gets the seed written on the first read, and a second read returns the seed and writes nothing |
| VendorData.ReadTwice | src/lib/vendor-data.ts:36-52 | a second read returns what the first did and leaves the store as the first left it |
| VendorData.SaveThenGet | src/lib/vendor-data.ts:54-57 | a read after a save returns exactly what was saved, the empty collection included (no re-seeding) |
| VendorData.FailedSaveUnseen | src/lib/vendor-data.ts:56-60 | a throwing write is invisible to later reads |

## Left out

- Firestore data functions (src/lib/customer-data.ts): a network client over an SDK that is not part of this model.
- `getCustomers` and `saveCustomers` (imported at src/app/page.tsx:7) are not part of this model: src/lib/customer-data.ts defines only the Firestore functions, so their behaviour is not invented here. The customers persist effect is modelled only as its guard (`HomePage.PersistCustomersGuard`).
- The suggestion service (src/ai/flows/suggest-related-entities.ts): an external model call. Its answer is an input to `GetSuggestions` (`None` for a failure).
- Rendering components (cards, lists, dialogs, layout, header, providers, suggestion panel): presentation only. The panel's wiring of suggestion kinds to fields is kept, in `AddSuggestion`.
- Toast titles and texts: only the name in the delete notification is modelled, as `Confirmed.deletedName`.
- Dialog open/close flags, the loading spinner, `handleCreateEntity` and `handleEditCustomer`/`handleEditVendor`: these only set the dialog flags and the edit selection.
- Form reset on reopen, and `setValue`'s re-validation: React Hook Form internals.
- React effect scheduling and state batching: each handler is applied to one state. The first-render persist, which runs before the loaded collections arrive, is not modelled.
- Email validation is zod's own check. It is an opaque predicate `isEmail` passed to `Validate` and `HandleSubmit`.
- `crypto.randomUUID()` is an opaque `freshId` input.
- JSON is taken to be lossless. Stored text is the empty string, unparseable text, or a serialised collection. Valid JSON of another shape, and records whose fields do not survive serialisation, are not modelled.
- An exception from the `localStorage.getItem` call in the page's persist guard (it sits outside any `try`) is not modelled.
- Text.Lower: maps only ASCII `A`-`Z`, while `toLowerCase` applies full Unicode case mapping. So `MatchesIgnoresCase` and `FilterIgnoresCase` are proved for ASCII case only.
- FormFields.Validate: measures the name in code points, while zod's `min(2)` counts UTF-16 code units. The two differ for names with characters outside the Basic Multilingual Plane.
- CustomerForm.HandleSubmit and VendorForm.HandleSubmit: zod's other transformations (such as stripping unknown keys) are not modelled.
- Text.Trim: strings are sequences of code points, not UTF-16 units, so lone surrogates are not modelled. The whitespace set is the JavaScript `WhiteSpace` and `LineTerminator` characters.
