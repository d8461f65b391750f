# Élégance dressmaking site: storage, API and page logic in Dafny

This project models the core of the Élégance site, a web site where
clients commission custom dresses and freelancers apply to sew them. Each
part below is a Dafny module.

- **`Storage`** models the in-memory record store, `MemStorage`. It holds
  six collections: users, portfolio items, orders, freelancer applications,
  contact messages and newsletter subscribers.
  - Each collection is an id-keyed map with its own counter starting at 1.
  - It is modelled as a `Table`: the rows in insertion order plus the
    counter. A JavaScript `Map` iterates in insertion order, and `set` on an
    existing key keeps the key's place.
  - Every operation is a pure function from the store and its arguments to
    the result and the new store.
  - The creation timestamp, which the source reads from the clock, is an
    argument.
- **`Database`** models `DatabaseStorage`. It forwards every call to the
  `MemStorage` it owns, and is proved to be observationally equal to it.
  `DatabaseStorage` is the class the server actually uses.
- **`Routes`** models the eight Express handlers as functions from the
  request and the storage object to the response and the new storage object.
  Routing follows Express's defaults:
  - routes are tried in registration order;
  - literal path segments match regardless of case;
  - a `:param` matches one non-empty segment;
  - a GET route also answers HEAD.
- **`Schema`** models the record shapes, which fields each insert schema
  accepts, and the column defaults.
- **`Text`** models `toLowerCase` and `parseInt`.
- **`Lightbox`**, **`PortfolioPage`** and **`Dashboard`** model the small
  pieces of logic in the client pages: the image viewer's wrap-around
  navigation, the portfolio page's category filter and click-to-index
  mapping, and the admin dashboard's counters, status cycle, recent panels
  and badges.

Each POST handler runs its insert schema's `safeParse` on the body. The
`Schema` module models the four schemas as parsers over JSON values
(`ParseOrder`, `ParseFreelancer`, `ParseContact`, `ParseNewsletter`): they
check required strings, nullable strings and the nested `measurements`
object, and they drop unknown keys. The handlers accept or refuse a body
through these parsers. Only the text of the error message is a parameter:
an `ErrorMessages` value holds one function per schema.

## Model

| member | source | states |
|---|---|---|
| Text.Lower | server/storage.ts:170-174 | `toLowerCase` yields a string of the same length, with no upper-case letter, that agrees with the argument letter by letter when case is ignored |
| Text.LowerIdempotent | server/storage.ts:170-174 | lower-casing twice is lower-casing once |
| Text.EqualsIgnoringCaseIsEquivalence | server/storage.ts:170-174 | comparing lower-cased strings is reflexive, symmetric and transitive, and a string matches its own lower-cased form |
| Text.ParseInt | server/routes.ts:34-37 | `parseInt` yields a number only when the string contains a decimal digit; otherwise it is NaN |
| Text.ParseIntOfNatToString | server/routes.ts:34 | `parseInt(String(n)) === n` for every non-negative integer |
| Text.NoDigitIsNaN | server/routes.ts:34-37 | a string with no decimal digit parses to NaN |
| Table.Insert | server/storage.ts:154-159 | a create stores the payload under the current counter and increments it; the new id was unused, the row is found under it, and every other lookup is unchanged |
| Table.Find | server/storage.ts:166-168 | `Map.get` returns a stored row with that id, and returns undefined exactly when no row has it |
| Table.Update | server/storage.ts:189-196 | `Map.set` on a present key replaces the value in place: positions, ids and counter are kept and every other row is untouched |
| Table.Modify | server/storage.ts:224-231 | get-then-set: undefined and no change for an unknown id; otherwise the changed row under the same id, with every other id's lookup unchanged |
| Table.Remove | server/storage.ts:198-200 | `Map.delete` reports whether the id was present and removes exactly that id's row; the counter is kept |
| Table.Filter | server/storage.ts:170-180 | `Array.filter` keeps exactly the rows satisfying the predicate, never more rows than before, in id order |
| Table.FilterIsTheOrderedSubsequence | server/storage.ts:170-180 | an id-ordered list holding exactly the rows that pass the predicate is the filter's result |
| Table.FilterAppend | server/storage.ts:211-222 | filtering a list with one more row appended is the old filter result plus that row, if it passes |
| Table.FindFirst | server/storage.ts:148-152 | `find`/`findIndex` returns the first position whose row satisfies the predicate, and none exactly when no row does |
| Schema.ApplyPatch | server/storage.ts:189-196 | `{ ...item, ...updatedFields }`: every field the patch carries is overwritten and every other field is kept |
| Schema.ApplyEmptyPatch | server/storage.ts:189-196 | an empty patch leaves the item as it was |
| Schema.NewOrder | server/storage.ts:211-222 | a stored order carries the client payload unchanged plus the given createdAt and status |
| Schema.NewFreelancer | server/storage.ts:242-253 | a stored application carries the client payload unchanged plus createdAt and status |
| Schema.NewContact | server/storage.ts:273-284 | a stored message carries the client payload unchanged plus createdAt and the read flag |
| Schema.OrderInsertKeysAreClientColumns | shared/schema.ts:42-79 | the body of every order payload has exactly the nine picked columns plus `measurements` as keys, which is every column except id, createdAt and status |
| Schema.FreelancerInsertKeysAreClientColumns | shared/schema.ts:85-113 | the body of every application has every column except id, createdAt and status as keys, and its phone is a required string |
| Schema.ContactInsertKeysAreClientColumns | shared/schema.ts:119-135 | the body of every contact payload has exactly name, email, subject and message as keys: every column except id, createdAt and read |
| Schema.NewsletterInsertKeysAreClientColumns | shared/schema.ts:141-150 | the body of every newsletter payload has only `email` as key |
| Schema.ParseOrder | shared/schema.ts:42-79 | `insertOrderSchema.safeParse` accepts exactly an object whose six non-null columns are strings, whose phone, specialRequirements and referralSource are absent, null or strings, and whose `measurements` parses; the payload carries those parsed measurements |
| Schema.ParseOrderRoundTrip | shared/schema.ts:42-79 | parsing the body of any order payload gives that payload back |
| Schema.ParseFreelancer | shared/schema.ts:85-113 | accepts exactly an object whose nine non-null columns are strings and whose portfolioUrl is absent, null or a string |
| Schema.ParseFreelancerRoundTrip | shared/schema.ts:85-113 | parsing the body of any application gives it back |
| Schema.ParseContact | shared/schema.ts:119-135 | accepts exactly an object whose name, email, subject and message are strings |
| Schema.ParseContactRoundTrip | shared/schema.ts:119-135 | parsing the body of any contact payload gives it back |
| Schema.ParseNewsletter | server/routes.ts:119-120 | the schema picked down to `email` accepts exactly an object whose email is a string, and yields that string |
| Schema.ParseNewsletterRoundTrip | shared/schema.ts:141-150 | parsing the body of any newsletter payload gives it back |
| Schema.ParseMeasurements | shared/schema.ts:70-79 | a measurements object is accepted exactly when all six fields (bust, waist, hips, height, shoulderToWaist, waistToHem) are strings, and the parsed value holds those six |
| Schema.ParseMeasurementsRoundTrip | shared/schema.ts:70-79 | serialising six measurements and parsing them back gives them back |
| Schema.ParseMeasurementsIgnoresExtraKeys | shared/schema.ts:70-79 | keys beside the six do not change the parsed value |
| Storage.SeedPortfolio | server/storage.ts:138-140 | creating the samples one by one appends them in order under consecutive ids and touches no other collection |
| Storage.Seeded | server/storage.ts:65-82 | the constructed store keeps the invariant, holds sample k under id k+1 with the counter just past the last sample, and has every other collection empty with its counter at 1 |
| Storage.ConstructorSeeds | server/storage.ts:65-141 | six empty maps followed by the `forEach` of creates are exactly that store, for any sample list |
| Storage.SamplesFeatured | server/storage.ts:85-136 | of the seven samples exactly the first four are flagged featured |
| Storage.New | server/storage.ts:65-141 | a fresh store holds exactly the seven samples under ids 1..7 with the portfolio counter at 8; every other collection is empty |
| Storage.SeededFeaturedItems | server/storage.ts:176-180 | when exactly the first f samples are flagged featured, the featured list of the fresh store is its first f items |
| Storage.NewFeaturedItems | server/storage.ts:84-141 | the featured items of a fresh store are exactly ids 1..4, in order |
| Storage.GetUser | server/storage.ts:144-146 | a user is returned only under its own id, and undefined exactly for an id not in the map |
| Storage.GetUserByUsername | server/storage.ts:148-152 | returns the first user in insertion order with that username (no earlier user has it), and undefined exactly when none has it |
| Storage.CreateUser | server/storage.ts:154-159 | the user is stored under the current counter, which then increments; the invariant holds and the user is found under its id |
| Storage.GetPortfolioItems | server/storage.ts:162-164 | the list is in ascending id order and holds exactly the items a lookup by id finds |
| Storage.GetPortfolioItemById | server/storage.ts:166-168 | an item is returned only under its own id, and undefined exactly for an id not stored |
| Storage.GetPortfolioItemsByCategory | server/storage.ts:170-174 | exactly the items whose category equals the argument ignoring case, in id order |
| Storage.CategoryFilterIgnoresCase | server/storage.ts:170-174 | arguments that differ only in case select the same items |
| Storage.GetFeaturedPortfolioItems | server/storage.ts:176-180 | exactly the items whose featured flag is true, in id order |
| Storage.CreatePortfolioItem | server/storage.ts:182-187 | the payload is stored as given under the current counter; a get right afterwards returns it, and every other lookup is unchanged |
| Storage.UpdatePortfolioItem | server/storage.ts:189-196 | undefined and no change for an unknown id; otherwise the patched item under the same id, in the same place, with every other item untouched |
| Storage.DeletePortfolioItem | server/storage.ts:198-200 | returns true exactly when the id was present, removes only that item, and afterwards the id is not found |
| Storage.DeleteTwice | server/storage.ts:198-200 | deleting a present id twice answers true, then false |
| Storage.DeletedIdNotReused | server/storage.ts:182-200 | the next item created after a delete never gets the deleted id |
| Storage.GetOrders | server/storage.ts:203-205 | the list is in ascending id order and holds exactly the orders a lookup finds |
| Storage.GetOrderById | server/storage.ts:207-209 | an order is returned only under its own id, and undefined exactly for an unknown id |
| Storage.CreateOrder | server/storage.ts:211-222 | the id is the current counter, which then increments; the status is "pending" whatever the input; every payload field is copied unchanged |
| Storage.GetAfterCreateOrder | server/storage.ts:207-222 | a get right after a create returns exactly the created order, which was not there before |
| Storage.UpdateOrderStatus | server/storage.ts:224-231 | any status string is accepted; undefined and no change for an unknown id; otherwise only the status of that order changes |
| Storage.GetFreelancers | server/storage.ts:234-236 | the list is in ascending id order and holds exactly the applications a lookup finds |
| Storage.GetFreelancerById | server/storage.ts:238-240 | an application is returned only under its own id, and undefined exactly for an unknown id |
| Storage.CreateFreelancer | server/storage.ts:242-253 | the id is the current counter; the status is "pending"; every payload field is copied unchanged |
| Storage.UpdateFreelancerStatus | server/storage.ts:255-262 | undefined and no change for an unknown id; otherwise only that application's status changes |
| Storage.GetContactMessages | server/storage.ts:265-267 | the list is in ascending id order and holds exactly the messages a lookup finds |
| Storage.GetContactMessageById | server/storage.ts:269-271 | a message is returned only under its own id, and undefined exactly for an unknown id |
| Storage.CreateContactMessage | server/storage.ts:273-284 | the id is the current counter; read is false; every payload field is copied unchanged |
| Storage.MarkContactMessageAsRead | server/storage.ts:286-293 | undefined and no change for an unknown id; otherwise only that message's read flag becomes true |
| Storage.MarkAsReadIdempotent | server/storage.ts:286-293 | marking a message as read twice leaves the store as marking it once |
| Storage.GetNewsletterSubscribers | server/storage.ts:296-298 | the subscribers are in id order and their emails are pairwise distinct |
| Storage.IsEmailSubscribed | server/storage.ts:322-326 | true exactly when some subscriber has that email |
| Storage.CreateNewsletterSubscriber | server/storage.ts:300-320 | a known email gets its existing record back with nothing changed; a new email is stored under the counter; either way the email is subscribed afterwards and emails stay distinct |
| Storage.SubscribeTwice | server/storage.ts:300-320 | subscribing the same email twice creates one record, and the second call returns it unchanged |
| Database.Apply | server/storage.ts:11-48 | every storage call keeps the store invariant and moves no counter back, and the read-only calls change nothing |
| Database.Run | server/storage.ts:11-48 | over any sequence of calls the invariant holds and no counter moves back, so no id is handed out twice |
| Database.ForwardIsApply | server/storage.ts:331-440 | each `DatabaseStorage` method answers as the inner `MemStorage` does and wraps the store `MemStorage` leaves |
| Database.DatabaseStorageIsMemStorage | server/storage.ts:331-440 | any sequence of calls gets the same answers from `DatabaseStorage` as from a bare `MemStorage`, and ends with the same store inside |
| Database.NewDatabaseStorage | server/storage.ts:447 | the server's storage object starts with seven items, four of them featured, and no orders, applications, messages or subscribers |
| Routes.RouteOf | server/routes.ts:12-139 | only GET/HEAD and POST are routed: the four portfolio paths and the four form paths; a path routed to the id handler has a non-empty third segment other than "featured" |
| Routes.ItemById | server/routes.ts:32-49 | 400 "Invalid ID format" exactly when the parameter does not parse; 404 exactly when it parses to an id storage does not hold; otherwise 200 with the stored item of that id |
| Routes.SubmitOrderHandler | server/routes.ts:63-78 | 400 with the schema's message exactly when the order schema refuses the body, and then storage is untouched; otherwise 201 with the id just allocated, under which the parsed order is stored as pending |
| Routes.SubmitFreelancerHandler | server/routes.ts:81-96 | 400 and no change exactly when the freelancer schema refuses the body; otherwise 201 with the freshly allocated `freelancerId`, under which the parsed application is stored as pending |
| Routes.SubmitContactHandler | server/routes.ts:99-114 | 400 and no change exactly when the contact schema refuses the body; otherwise 201 with the freshly allocated `messageId`, under which the parsed message is stored unread |
| Routes.SubscribeHandler | server/routes.ts:117-139 | 400 exactly when the body has no string email; 200 "Already subscribed" with no new record exactly when the email is known; otherwise 201 with the new `subscriberId` |
| Routes.Dispatch | server/routes.ts:12-139 | a request is handled exactly when a route matches; only a 201 changes storage, the invariant is kept, and the id a 201 reports is the one its counter held |
| Routes.Serve | server/routes.ts:12-139 | over any sequence of requests the store invariant holds and no counter moves back |
| Routes.FeaturedIsNotAnId | server/routes.ts:22-49 | GET `/api/portfolio/featured`, in any case, answers the featured list and is never treated as an id |
| Routes.ItemByDecimalId | server/routes.ts:32-49 | GET `/api/portfolio/<n>` answers 200 with item n when storage holds it and 404 otherwise, leaving storage unchanged |
| Routes.NonNumericIdIsRefused | server/routes.ts:32-37 | an id segment with no digit answers 400 "Invalid ID format" without touching storage |
| Routes.CategoryRouteIgnoresCase | server/routes.ts:51-60 | `/category/FORMAL` and `/category/formal` route alike and answer the same list |
| Routes.UnroutedRequests | server/routes.ts:12-139 | GET `/api/orders`, PATCH `/api/orders/:id` and DELETE `/api/portfolio/:id` have no handler and change nothing |
| Routes.OrderWithoutMeasurementsIsRefused | server/routes.ts:63-70 | an order body whose `measurements` is missing or malformed is answered 400 with the schema's message, and nothing is stored |
| Routes.PostedOrderIsStored | server/routes.ts:63-73 | posting the body of any order payload answers 201 with the next order id, under which exactly that payload is stored as pending |
| Routes.SubscribeTwice | server/routes.ts:117-139 | posting one email twice answers 201 (when it was new), then 200 "Already subscribed" with nothing stored |
| Routes.CreatedIdsIncrease | server/routes.ts:63-139 | across any request sequence, the ids successive 201 answers report for one kind strictly increase and lie between the counters before and after |
| Lightbox.Previous | client/src/components/ui/lightbox.tsx:39-43 | 0 maps to n-1 and every other i to i-1, staying in [0, n) |
| Lightbox.Next | client/src/components/ui/lightbox.tsx:45-49 | n-1 maps to 0 and every other i to i+1, staying in [0, n) |
| Lightbox.PreviousNextInverse | client/src/components/ui/lightbox.tsx:39-49 | previous after next and next after previous are the identity on valid indices |
| Lightbox.SingleImage | client/src/components/ui/lightbox.tsx:39-49 | with one image both directions are no-ops |
| Lightbox.FullCircle | client/src/components/ui/lightbox.tsx:45-49 | n successive nexts return to the starting index |
| Lightbox.OnKey | client/src/components/ui/lightbox.tsx:20-28 | Escape closes, ArrowLeft moves back, ArrowRight moves forward, any other key changes nothing |
| Lightbox.PressKeys | client/src/components/ui/lightbox.tsx:17-93 | from a valid selected index, any key sequence leaves the viewer closed or on an existing image, whose counter reads 1..n; it stays open exactly when no Escape was pressed |
| PortfolioPage.FilteredItems | client/src/pages/Portfolio.tsx:18-20 | the shown items are exactly those of the list under the selected category, never more than the list |
| PortfolioPage.AllShowsEverything | client/src/pages/Portfolio.tsx:18-20 | with "all" the shown list is the full list |
| PortfolioPage.FilteredIsOrderedSelection | client/src/pages/Portfolio.tsx:16-20 | under a category the shown list is the order-preserving selection of the items whose lower-cased category equals it |
| PortfolioPage.CategoriesAreLowerCase | client/src/pages/Portfolio.tsx:16 | every selectable category other than "all" is lower case |
| PortfolioPage.PageAgreesWithCategoryRoute | client/src/pages/Portfolio.tsx:16-20 | for a lower-case category the page shows exactly what storage's case-insensitive category filter returns |
| PortfolioPage.LightboxImages | client/src/pages/Portfolio.tsx:22-25 | one image per item, in order; image k has item k's imageUrl and name |
| PortfolioPage.ClickIndex | client/src/pages/Portfolio.tsx:80 | the position of the first item with the clicked id, -1 when there is none, 0 before the list has loaded |
| PortfolioPage.ClickOpensClickedImage | client/src/pages/Portfolio.tsx:22-80 | clicking a shown item opens the viewer at an index in range, on the clicked item's own picture |
| Dashboard.NextStatus | client/src/pages/admin/Dashboard.tsx:492-493 | the next status is always one of the three known ones; an unknown status goes to pending |
| Dashboard.StatusCycle | client/src/pages/admin/Dashboard.tsx:492-493 | three presses from a known status return to it, and one or two do not |
| Dashboard.ComputeAnalytics | client/src/pages/admin/Dashboard.tsx:98-106 | pending orders ≤ total orders, pending freelancers ≤ total freelancers, unread messages ≤ total messages, and an absent data set counts 0 |
| Dashboard.CountOr0 | client/src/pages/admin/Dashboard.tsx:103-105 | a filtered count is 0 for absent data and never exceeds the total |
| Dashboard.NewOrderIsCountedPending | client/src/pages/admin/Dashboard.tsx:98-106 | a newly stored order raises both the total and the pending count by one |
| Dashboard.Recent | client/src/pages/admin/Dashboard.tsx:294 | the recent panel shows the first min(5, len) records in list order |
| Dashboard.OrderBadge | client/src/pages/admin/Dashboard.tsx:479-482 | yellow exactly for pending, green exactly for completed, blue otherwise |
| Dashboard.FreelancerBadge | client/src/pages/admin/Dashboard.tsx:557-560 | yellow exactly for pending, green exactly for approved, red otherwise |
| Dashboard.MessageBadge | client/src/pages/admin/Dashboard.tsx:345-348 | red exactly for an unread message, gray otherwise |
| Dashboard.BadgesAlongTheCycle | client/src/pages/admin/Dashboard.tsx:479-493 | going round the status cycle from pending shows yellow, blue, then green |
| Dashboard.NewRecordsBadges | client/src/pages/admin/Dashboard.tsx:301-304 | a newly stored order shows the pending badge and a new message the unread badge |

## Left out

- React rendering, hooks, query caching and invalidation, toasts,
  navigation and the static pages carry no statable logic and are not
  modelled. The same goes for the form pages, whose extra checks live in a
  library that is not part of this model.
- The text of `fromZodError` messages is a parameter
  (`Routes.ErrorMessages`). Which bodies are refused is modelled.
- Schema.NullableString: reads an absent key and an explicit null alike as
  null. Zod leaves an absent key out of the parsed payload, and a stored
  record would then lack the field rather than hold null. No handler
  answers differently either way.
- Schema.ApplyPatch: cannot express a patch that carries a key explicitly
  set to `undefined`. `Partial<InsertPortfolio>` allows `{ name: undefined }`,
  and the spread at server/storage.ts:193 then overwrites the field with
  `undefined`. No route sends a patch (there is no update route), and the
  stored-record type has no value for "undefined" in a non-nullable
  column, so here `None` in a patch always means "key absent".
- Id counters: each create runs `xIdCounter++` on a JavaScript number
  (server/storage.ts:155, 183, 212, 243, 274, 311). The model's counters are
  unbounded integers. In JavaScript, once a counter reaches 2^53, `2^53 + 1`
  rounds back to 2^53. Every later create would then get the same id and
  `Map.set` would overwrite the previous record. Storage.Invariant,
  Storage.DeletedIdNotReused and Routes.CreatedIdsIncrease therefore hold
  here only for the first 2^53 creates of a kind, which is the range the
  source can reach in practice.
- The database connection module (`server/db.ts`) is not part of this
  model. `DatabaseStorage` never uses it.
- Timestamps: `new Date().toISOString()` is an argument (`createdAt`, or the
  request's `now`).
- The 500 / `console.error` branches are left out, because the in-memory
  store never throws.
- Async interleaving is left out: requests are served one at a time. This
  covers the gap between the newsletter handler's check and its create.
- HTTP transport and JSON serialisation are left out.
  - A request arrives already split into path segments and with a parsed
    body.
  - A HEAD request gets the GET response here, though Express sends no body
    for it.
  - Percent-decoding and the optional trailing slash are not modelled.
  - A request no API route matches is reported as unhandled. It is not
    followed into the static-file server.
- Text.ParseInt: yields an unbounded integer. JavaScript rounds digit
  strings above 2^53 to the nearest double and gives `-0` for "-0". Neither
  changes which of the small positive ids is found.
- Text.Lower: folds only the ASCII letters A–Z. JavaScript's `toLowerCase`
  also folds other Unicode letters.
- Storage.CreateUser: usernames are not checked for uniqueness. The source
  does not check them either; only the schema declares the column unique.
- Dashboard.ComputeAnalytics: counts over whatever lists it is given. As
  the server is written, GET `/api/orders`, `/api/freelancers` and
  `/api/contact` have no route, so the dashboard never receives those lists.
  The "Change Status" PATCH and the portfolio DELETE it sends also have no
  handler (`Routes.UnroutedRequests`).
- The "Approve", "Reject" and "Mark as read" buttons of the dashboard have
  empty click handlers and change nothing, so they are not modelled.
- Portfolio `featured` default: `createPortfolioItem` stores the payload as
  given and does not fill in the column default `false`. An absent flag is
  kept as absent (`None`) and counts as not featured.
