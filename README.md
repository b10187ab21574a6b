# A Dafny model of the agency site's stores, forms, slugs and price estimator

The site is a brochure site for a software agency. Apart from presentation, it has six pieces of behaviour, and this project models and proves properties of each:

- **`MongoStorage` in-memory store** (`src/lib/storage.ts`), the path taken when no database is configured. It holds a Map of contact submissions and a Map of blog posts. Operations: create, list newest first, filter by `published`, look up by slug or id, patch-update and delete.
- **`MemStorage`** (`AgencySpark/server/storage.ts`), with its users and contacts Maps.
- **The shared record shapes** and the server-side input schemas (`shared/schema.ts`).
- **The contact section** (`AgencySpark/client/src/components/contact.tsx`): its form schema and its "submitted" state.
- **The blog admin page** (`src/app/blog/admin/page.tsx`):
  - `generateSlug`;
  - the form schema;
  - create/update dispatch;
  - the publish toggle;
  - the dialog state.
- **The pricing calculator** (`src/components/pricing-calculator.tsx`): the service toggle and the price estimate.

Module layout:

| file | module | models |
|---|---|---|
| `maybe.dfy` | `Maybe` | `Option` (present or `undefined`), `Nullable` (absent, `null` or a value) and `??` |
| `listing.dfy` | `Listing` | Array `filter` and `find`; a stable `sort` on a numeric key, newest first; a Map read in insertion order |
| `schema.dfy` | `Schema` | records, validity predicates, record construction, patch merge |
| `content_store.dfy` | `ContentStore` | `MongoStorage` |
| `mem_store.dfy` | `MemStore` | `MemStorage` users and contacts |
| `slug.dfy` | `Slug` | `generateSlug` |
| `contact_form.dfy` | `ContactForm` | `contactSchema` and the `isSubmitted` state |
| `blog_admin.dfy` | `BlogAdmin` | the admin form, dialog state and requests |
| `pricing.dfy` | `Pricing` | `toggleService` and `estimatedPrice` |

Modelling choices:

- **A JavaScript Map** is a `map` plus the insertion order of its keys. The order decides two things:
  - which of two posts sharing a slug `find` returns;
  - how the stable sort orders records with equal creation times.
- **Each store** is a class whose fields are the Maps. Every method is proved against a pure transition function on a `Store` value (`ensures State() == AddPost(old(State()), …)`), and the properties are proved as lemmas about those functions.
- **Inputs and parameters:**
  - Fresh ids (`randomUUID`) are parameters, required absent from the Map.
  - The clock (`new Date()`) is a parameter, in milliseconds.
  - The schema library's e-mail check is a parameter, `isEmail`.
  - The server's answer to a form request is a boolean parameter.
- **The price estimate** uses integers scaled by 8. Each multiplier (1, 1.5, 2.5, 4 and 1.5, 1.25, 1) is an exact binary fraction. So the estimate is `(N + 4) / 8` with `N = base × C2 × T4 + 8 × support`, where:
  - `C2` is 2, 3, 5 or 8;
  - `T4` is 6, 5 or 4;
  - `Math.round(x)` is `floor(x + 1/2)`.

## Model

| member | source | states |
|---|---|---|
| Listing.Keep | src/lib/storage.ts:124-126 | `filter` keeps exactly the elements satisfying the test, never adds any, and never grows the list |
| Listing.KeepAppend | src/lib/storage.ts:124-126 | filtering a concatenation filters each part, in order |
| Listing.KeepNoDup | src/components/pricing-calculator.tsx:129 | filtering never introduces a duplicate |
| Listing.Without | src/components/pricing-calculator.tsx:129 | `filter(id => id !== x)` removes every `x` and keeps every other element |
| Listing.WithoutSplit | src/components/pricing-calculator.tsx:129 | removing the single occurrence of `x` leaves the elements before and after it, in order |
| Listing.FindFirst | src/lib/storage.ts:156 | `find` returns an element that passes the test, and returns nothing exactly when no element passes |
| Listing.FindFirstIsFirst | src/lib/storage.ts:156 | the element `find` returns has no passing element before it |
| Listing.FindFirstAppend | src/lib/storage.ts:156 | `find` over a longer list still returns what it found in the prefix |
| Listing.SortDescPerm | src/lib/storage.ts:90-92 | sorting by `b - a` permutes the list (same multiset, same length) |
| Listing.SortDescSorted | src/lib/storage.ts:90-92 | the sorted list is non-increasing in the key |
| Listing.SortDescStable | src/lib/storage.ts:90-92 | records with equal keys keep their original relative order (JavaScript's sort is stable) |
| Listing.SortDesc | src/lib/storage.ts:90-92 | `sort((a, b) => key(b) - key(a))` as a stable insertion sort; its contract is the three lemmas above |
| Listing.InOrder | src/lib/storage.ts:90 | `Array.from(map.values())` lists each key's value once, in insertion order |
| Listing.InOrderValues | src/lib/storage.ts:90 | that array has one entry per key and holds exactly the Map's values |
| Listing.InOrderAppend | src/lib/storage.ts:65 | `set` of a new key appends its value after all the older values |
| Schema.NewContact | src/lib/storage.ts:41-50 | the stored contact copies name, e-mail and message, stamps `id` and `createdAt`, and stores a missing company as null |
| Schema.JsLength | shared/schema.ts:4 | JavaScript's `.length` in UTF-16 code units: between the number of characters and twice that, and 0 only for "" |
| Schema.ContactInputValid | shared/schema.ts:3-8 | holds exactly when the name and message have `.length` at least 1 and the e-mail passes the e-mail check; the company is unconstrained |
| Schema.BlogInputValid | shared/schema.ts:17-26 | holds exactly when title, slug, excerpt, content, category and author all have `.length` at least 1 |
| Schema.PatchValid | shared/schema.ts:17-26 | the partial schema: every text field the patch carries has `.length` at least 1 |
| Schema.NewBlogPost | src/lib/storage.ts:187-202 | the stored post defaults `published` to false and the cover image to null, and sets `createdAt = updatedAt = now` |
| Schema.ApplyPatch | src/lib/storage.ts:261-266 | each field the patch carries overwrites; a null or absent cover image keeps the old one; `id` and `createdAt` are kept; `updatedAt = now` |
| Schema.NewContactExtendsInput | shared/schema.ts:12-15 | a stored contact extends its input: read back, it is the input (a missing company as null), and it is valid exactly when the input is |
| Schema.NewBlogPostExtendsInput | shared/schema.ts:30-35 | a stored post extends its input, with a definite `published` flag (false when absent) |
| Schema.ApplyPatchKeepsValid | shared/schema.ts:17-26 | a patch with only non-empty texts keeps a schema-valid post schema-valid |
| Schema.ApplyPatchIdempotent | src/lib/storage.ts:261-266 | applying the same patch twice equals applying it once |
| Schema.ApplyNoChanges | src/lib/storage.ts:261-266 | an empty patch changes only `updatedAt` |
| ContentStore.EmptyStore | src/lib/storage.ts:26-29 | the new store is well formed and both Maps are empty |
| ContentStore.AddContact | src/lib/storage.ts:41-66 | the new contact is set under its fresh id, which goes last in key order; the posts are untouched; the store stays well formed |
| ContentStore.AddPost | src/lib/storage.ts:187-218 | the new post is set under its fresh id, which goes last in key order; the contacts are untouched |
| ContentStore.ListContacts | src/lib/storage.ts:90-92 | `Array.from(contacts.values())` sorted newest first; its contract is `ListContactsSpec` |
| ContentStore.ListPosts | src/lib/storage.ts:122-128 | all posts, or only the published ones, sorted newest first; its contract is `ListPostsSpec` |
| ContentStore.PostBySlug | src/lib/storage.ts:156 | the first post in Map order with the slug; its contract is `PostBySlugSpec` |
| ContentStore.PostById | src/lib/storage.ts:184 | a lookup by id finds a post exactly when the id is stored, and that post carries the id |
| ContentStore.PatchPost | src/lib/storage.ts:258-268 | an unknown id changes nothing; a known one is replaced by the merged post; every other post and every contact is unchanged |
| ContentStore.DeletePost | src/lib/storage.ts:282 | the id and its place in the order are gone; every other post is unchanged |
| ContentStore.ListContactsSpec | src/lib/storage.ts:90-92 | the contact list is newest first, has one entry per stored contact, holds exactly the stored contacts, and ties keep insertion order |
| ContentStore.ListPostsSpec | src/lib/storage.ts:122-128 | the post list is newest first and is a permutation (same multiset, same length) of the stored posts, or of the published ones when `publishedOnly`; without the filter it has one entry per stored post; posts with equal creation times keep their Map order |
| ContentStore.PostBySlugSpec | src/lib/storage.ts:156 | the slug lookup returns a stored post with that slug, the first in Map order, and returns nothing exactly when no stored post has the slug |
| ContentStore.CreatedPostFoundById | src/lib/storage.ts:187-218 | a created post is returned by id, a draft when no flag was given and with a null cover image when none was given |
| ContentStore.CreatedPostFoundBySlug | src/lib/storage.ts:156 | after creation, the post's slug finds a post with that slug |
| ContentStore.OlderSlugWins | src/lib/storage.ts:156 | creating a post whose slug is already used leaves the slug lookup answering with the older post |
| ContentStore.DraftHiddenFromPublicList | src/lib/storage.ts:122-128 | a post created without a flag is listed in the full list but not in the public one |
| ContentStore.PublishShowsPost | src/lib/storage.ts:258-268 | an update setting `published` puts the post in the public list |
| ContentStore.CreatedContactListed | src/lib/storage.ts:65-66 | a created contact is listed, and the list grows by exactly one |
| ContentStore.DeleteTwice | src/lib/storage.ts:282 | after a delete the id finds nothing, and a second delete changes nothing |
| ContentStore.MongoStorage.CreateContactSubmission | src/lib/storage.ts:41-66 | returns the stored contact, filed under its id; new state as `AddContact` |
| ContentStore.MongoStorage.GetContactSubmissions | src/lib/storage.ts:69-92 | returns the contacts newest first, one per stored contact |
| ContentStore.MongoStorage.GetBlogPosts | src/lib/storage.ts:95-128 | with `publishedOnly` (default true), the published posts; otherwise all posts, one per stored post; newest first, as a permutation of the filtered posts |
| ContentStore.MongoStorage.GetBlogPostBySlug | src/lib/storage.ts:131-156 | a post with that slug, or nothing exactly when none is stored |
| ContentStore.MongoStorage.GetBlogPostById | src/lib/storage.ts:159-184 | the post stored under the id, or nothing when the id is unknown |
| ContentStore.MongoStorage.CreateBlogPost | src/lib/storage.ts:187-218 | returns the new post with defaults applied, filed under its id |
| ContentStore.MongoStorage.UpdateBlogPost | src/lib/storage.ts:221-268 | nothing and no change for an unknown id; otherwise the merged post, stored in place |
| ContentStore.MongoStorage.DeleteBlogPost | src/lib/storage.ts:271-282 | reports true exactly when the id was stored, and removes it |
| MemStore.NewUser | AgencySpark/server/storage.ts:49 | `{ ...insertUser, id }` |
| MemStore.EmptyStore | AgencySpark/server/storage.ts:32-35 | the new store is well formed and both Maps are empty |
| MemStore.UserByUsername | AgencySpark/server/storage.ts:41-45 | the first user in Map order with the username; its contract is `UserByUsernameSpec` |
| MemStore.UserById | AgencySpark/server/storage.ts:37-39 | a user exactly when the id is stored |
| MemStore.AddUser | AgencySpark/server/storage.ts:47-52 | the user is set under its fresh id, which goes last in key order; the contacts are untouched |
| MemStore.AddContact | AgencySpark/server/storage.ts:54-66 | the contact is set under its fresh id, which goes last in key order; the users are untouched |
| MemStore.ListContacts | AgencySpark/server/storage.ts:68-72 | the contacts in Map order, sorted newest first; its contract is `ListContactsSpec` |
| MemStore.CreatedUserFound | AgencySpark/server/storage.ts:37-52 | a created user is returned by id; an id never created returns nothing |
| MemStore.UserByUsernameSpec | AgencySpark/server/storage.ts:41-45 | the username lookup returns a stored user with that name, and nothing exactly when no stored user has it |
| MemStore.CreatedUserFoundByName | AgencySpark/server/storage.ts:41-52 | after creating a user, its username finds a user |
| MemStore.ListContactsSpec | AgencySpark/server/storage.ts:68-72 | the contact list is newest first and holds exactly the stored contacts, once each |
| MemStore.CreatedContactCounted | AgencySpark/server/storage.ts:54-72 | each creation adds exactly one listed contact, the created one |
| MemStore.MemStorage.GetUser | AgencySpark/server/storage.ts:37-39 | the user under the id, or nothing |
| MemStore.MemStorage.GetUserByUsername | AgencySpark/server/storage.ts:41-45 | a user with that username, or nothing exactly when there is none |
| MemStore.MemStorage.CreateUser | AgencySpark/server/storage.ts:47-52 | returns the stored user; the contacts are unchanged |
| MemStore.MemStorage.CreateContactSubmission | AgencySpark/server/storage.ts:54-66 | returns the stored contact; the users are unchanged |
| MemStore.MemStorage.GetContactSubmissions | AgencySpark/server/storage.ts:68-72 | all contacts, newest first |
| Slug.GenerateSlug | src/app/blog/admin/page.tsx:215-220 | a slug holds only a–z, 0–9 and '-', never starts or ends with '-', and never contains "--"; the letters and digits of the lower-cased title survive, in order, and no other letter or digit appears |
| Slug.GenerateSlugIdempotent | src/app/blog/admin/page.tsx:215-220 | the slug of a slug is itself |
| Slug.SlugShapedIsFixed | src/app/blog/admin/page.tsx:215-220 | any string already shaped like a slug is its own slug |
| Slug.CollapseIsReplaceRuns | src/app/blog/admin/page.tsx:218 | the left-to-right scan agrees with a run-by-run reading: each maximal run of other characters becomes exactly one '-' |
| ContactForm.ToInsert | AgencySpark/client/src/components/contact.tsx:67-70 | the posted body carries the form's fields, and the company is absent only when the form has none |
| ContactForm.FormValid | AgencySpark/client/src/components/contact.tsx:23-28 | holds exactly when the name has `.length` at least 2, the e-mail passes the e-mail check and the message has `.length` at least 10 |
| ContactForm.FormRefinesServer | AgencySpark/client/src/components/contact.tsx:23-28 | every value the form accepts, the server schema accepts |
| ContactForm.FormRejectsShort | AgencySpark/client/src/components/contact.tsx:24-27 | a name under 2 or a message under 10 UTF-16 code units is refused |
| ContactForm.AstralNamePasses | AgencySpark/client/src/components/contact.tsx:24 | lengths are counted in code units: a name of one emoji character passes the two-character minimum |
| ContactForm.DefaultCompanyStoredEmpty | AgencySpark/client/src/components/contact.tsx:59-64 | the untouched company field is "" and is stored as "", not as null |
| ContactForm.Request | AgencySpark/client/src/components/contact.tsx:88-90 | a request is posted exactly when the form is shown and its values pass, and it passes the server schema |
| ContactForm.AfterSubmit | AgencySpark/client/src/components/contact.tsx:71-85 | success shows the thank-you panel and resets the fields; failure changes nothing |
| ContactForm.SendAnother | AgencySpark/client/src/components/contact.tsx:141 | "Send Another Message" shows the form again |
| ContactForm.SubmitThenSendAnother | AgencySpark/client/src/components/contact.tsx:71-78 | a success then "Send Another Message" gives back the initial state |
| ContactForm.SubmittedSendsNothing | AgencySpark/client/src/components/contact.tsx:123 | while the thank-you panel is shown nothing is posted |
| ContactForm.ContactSection.Edit | AgencySpark/client/src/components/contact.tsx:157-163 | the bound fields hold what was typed; the panel shown is unchanged |
| ContactForm.ContactSection.Submit | AgencySpark/client/src/components/contact.tsx:68-90 | posts `Request` and moves to `AfterSubmit` |
| ContactForm.ContactSection.SendAnotherMessage | AgencySpark/client/src/components/contact.tsx:141 | moves to `SendAnother` |
| BlogAdmin.ToInsert | src/app/blog/admin/page.tsx:222-227 | the create body is the form's values |
| BlogAdmin.ToPatch | src/app/blog/admin/page.tsx:222-225 | the update body carries every form field |
| BlogAdmin.FormValid | src/app/blog/admin/page.tsx:64-68 | holds exactly when the title has `.length` at least 5, the excerpt at least 20, the content at least 100, and slug, category and author at least 1 |
| BlogAdmin.FormRefinesServer | src/app/blog/admin/page.tsx:64-68 | whatever the form accepts, the server schema accepts, whether sent as a create or as an update |
| BlogAdmin.FormRejectsShort | src/app/blog/admin/page.tsx:64-68 | a title under 5, an excerpt under 20 or content under 100 UTF-16 code units is refused |
| BlogAdmin.EditValues | src/app/blog/admin/page.tsx:200-213 | the edit form holds the post's fields, with a missing cover image as "" |
| BlogAdmin.OpenCreateDialog | src/app/blog/admin/page.tsx:185-198 | nothing is being edited, the form holds the defaults, and the dialog is open |
| BlogAdmin.OpenEditDialog | src/app/blog/admin/page.tsx:200-213 | the post is being edited, the form holds its fields, and the dialog is open |
| BlogAdmin.CloseDialog | src/app/blog/admin/page.tsx:255 | the dialog closes and everything else stays |
| BlogAdmin.ChangeTitle | src/app/blog/admin/page.tsx:279-283 | the slug follows the title only while creating, and never while editing; nothing else changes |
| BlogAdmin.Submit | src/app/blog/admin/page.tsx:222-228 | an update of the post being edited, else a create, exactly when the dialog is open and the values pass |
| BlogAdmin.SubmitPassesServer | src/app/blog/admin/page.tsx:222-228 | every request the dialog sends passes the server schema |
| BlogAdmin.CreatedSlugFromTitle | src/app/blog/admin/page.tsx:279-283 | while creating, the slug is the title's slug and is slug-shaped |
| BlogAdmin.AfterCreateSuccess | src/app/blog/admin/page.tsx:103-107 | the dialog closes |
| BlogAdmin.AfterUpdateSuccess | src/app/blog/admin/page.tsx:126-130 | the dialog closes and nothing is being edited |
| BlogAdmin.TogglePublish | src/app/blog/admin/page.tsx:500-504 | an update of the post whose only field is `published = !post.published` |
| BlogAdmin.Delete | src/app/blog/admin/page.tsx:525 | the delete button asks to delete the post by its id |
| BlogAdmin.TogglePublishFlips | src/app/blog/admin/page.tsx:165-167 | applied by the store, the toggle flips the flag and changes nothing else but `updatedAt` |
| BlogAdmin.TogglePublishTwice | src/app/blog/admin/page.tsx:500-504 | two toggles restore the flag |
| BlogAdmin.EditUnchangedRoundTrip | src/app/blog/admin/page.tsx:200-228 | saving an opened post unchanged sends an update of that post that changes only `updatedAt`, except that a null cover image becomes "" |
| BlogAdmin.AdminPage.OpenCreate | src/app/blog/admin/page.tsx:185-198 | moves to `OpenCreateDialog` |
| BlogAdmin.AdminPage.OpenEdit | src/app/blog/admin/page.tsx:200-213 | moves to `OpenEditDialog` |
| BlogAdmin.AdminPage.Close | src/app/blog/admin/page.tsx:255 | moves to `CloseDialog` |
| BlogAdmin.AdminPage.OnTitleChange | src/app/blog/admin/page.tsx:279-283 | moves to `ChangeTitle` |
| BlogAdmin.AdminPage.OnFieldChange | src/app/blog/admin/page.tsx:295-299 | moves to `EditForm`: the form holds what was entered |
| BlogAdmin.AdminPage.OnSubmit | src/app/blog/admin/page.tsx:222-228 | returns `Submit`: an update for the post being edited, otherwise a create, only for passing values |
| BlogAdmin.AdminPage.OnCreateSuccess | src/app/blog/admin/page.tsx:103-107 | moves to `AfterCreateSuccess` |
| BlogAdmin.AdminPage.OnUpdateSuccess | src/app/blog/admin/page.tsx:126-130 | moves to `AfterUpdateSuccess` |
| Pricing.BasePrice | src/components/pricing-calculator.tsx:136-137 | a listed id's price comes from the table; an unknown id is worth 0 |
| Pricing.ToggleService | src/components/pricing-calculator.tsx:126-132 | the toggled id is selected exactly when it was not; every other id is as it was |
| Pricing.ToggleKeepsOrder | src/components/pricing-calculator.tsx:126-132 | the other ids keep their relative order |
| Pricing.ToggleTwice | src/components/pricing-calculator.tsx:126-132 | toggling an unselected id twice restores the selection |
| Pricing.ToggleNoDup | src/components/pricing-calculator.tsx:126-132 | a toggle never introduces a duplicate |
| Pricing.SelectionNoDup | src/components/pricing-calculator.tsx:121-132 | from the initial `[]`, no sequence of clicks makes an id appear twice |
| Pricing.BaseTotal | src/components/pricing-calculator.tsx:135-138 | the sum over the selection of each id's base price, 0 for an unknown id; its contract is `BaseTotalAppend` and `ToggleTotal` |
| Pricing.BaseTotalAppend | src/components/pricing-calculator.tsx:135-138 | the base total is additive over concatenation |
| Pricing.ToggleTotal | src/components/pricing-calculator.tsx:126-138 | selecting a service adds its base price; deselecting it subtracts it |
| Pricing.ComplexityTimes2 | src/components/pricing-calculator.tsx:113-118 | twice the level's multiplier (1, 1.5, 2.5, 4), exactly, as an integer |
| Pricing.TimelineTimes4 | src/components/pricing-calculator.tsx:141 | four times the timeline multiplier (1.5 up to one month, 1.25 up to two, 1 beyond), exactly, as an integer |
| Pricing.SupportCost | src/components/pricing-calculator.tsx:142 | 500 a month with support, 0 without; its contract is `ScaledQuoteExact` |
| Pricing.ScaledQuote | src/components/pricing-calculator.tsx:140-144 | eight times the unrounded quote for a given `baseTotal`, on integers; its contract is `ScaledQuoteExact` |
| Pricing.ScaledQuoteExact | src/components/pricing-calculator.tsx:134-144 | the scaled integer quote is exactly 8 times the real-valued `baseTotal * complexityMultiplier * timelineMultiplier + supportCost` with the literal multipliers |
| Pricing.EstimatedPrice | src/components/pricing-calculator.tsx:140-144 | the estimate is the exact quote rounded to the nearest integer, halves up |
| Pricing.EstimateRoundsQuote | src/components/pricing-calculator.tsx:144 | `Math.round`: the estimate `r` satisfies `r - 0.5 <= quote < r + 0.5` for the real-valued quote |
| Pricing.EstimateNonNegative | src/components/pricing-calculator.tsx:144 | over the slider's range of months, the estimate is never negative |
| Pricing.EstimateZero | src/components/pricing-calculator.tsx:144 | with nothing selected and no support, the estimate is 0 |
| Pricing.ComplexityMonotone | src/components/pricing-calculator.tsx:113-118 | the complexity multipliers increase with the level |
| Pricing.EstimateMonotoneInComplexity | src/components/pricing-calculator.tsx:113-144 | a higher complexity level never lowers the estimate |
| Pricing.EstimateMonotoneInSupport | src/components/pricing-calculator.tsx:142-144 | including support never lowers the estimate |
| Pricing.QuoteDisabled | src/components/pricing-calculator.tsx:423 | the quote button is disabled only when the selection is empty, and then the base total is 0 |

## Left out

- The MongoDB branches of `src/lib/storage.ts` and the connection in `src/lib/db.ts` are not modelled; `db.ts` is not part of this model. They are driver I/O, and the model is the path where no database is configured.
- The Drizzle-backed blog methods of `MemStorage` (`AgencySpark/server/storage.ts:74-120`) go through a foreign ORM with no visible semantics.
- The HTTP route handlers are request/response glue. Their one rule, that `publishedOnly` is `all !== "true"`, is not modelled; `GetBlogPosts` takes the flag directly.
- The update body is a closed record of optional input fields. The server spreads an unvalidated request body, which at run time could also overwrite `id` or `createdAt`.
- The e-mail format check is the schema library's and is a parameter. `randomUUID` and `new Date()` are parameters too.
- Slug.LowerChar: lower-casing is modelled on ASCII letters only, not Unicode `toLowerCase`.
- `User` and `InsertUser` are not declared in the shared schema file. They are modelled as a username and a password.
- The contact form's and the admin dialog's `isPending` button guards are not modelled, and nor is any concurrency between requests. There is no concurrency; execution is single-threaded.
- BlogAdmin.AfterCreateSuccess: does not model the admin form's `form.reset()` after a create succeeds. The values it restores are internal to the form library. Every dialog opening resets the values explicitly, and that is modelled.
- BlogAdmin.AfterUpdateSuccess: does not model the admin form's `form.reset()` after an update succeeds, for the same reason.
- Toasts, query invalidation, animation and every other piece of presentation are not modelled.
- Pricing.QuoteDisabled: this is the button's own condition (`length === 0`). The model does not track the complexity, timeline and support controls as state; they are arguments to `EstimatedPrice`.
- Strings are sequences of Unicode scalar values; `Schema.JsLength` counts a character above U+FFFF as two code units. A JavaScript string holding an unpaired surrogate has no counterpart in the model.
