# Print-shop order engine, modelled in Dafny

A print shop takes documents from customers, prices the print job, records an
order with its attached files, and lets an operator move the order through its
statuses. This project models the logic behind that flow and proves properties
of it:

- **The in-memory store** (`MemStorage`): three id-keyed maps (users, orders,
  order files), each with its own sequential id counter starting at 1. It can
  create and look up users, create orders, look an order up by numeric id or by
  its human-readable code, list every order, rewrite an order's status, attach
  files to an order id, and list the files of an order. The store is an immutable
  value (module `Storage`). Each JavaScript `Map` is an insertion-ordered
  association list (module `OrderedMap`), with `Map.set` modelled as it behaves:
  a new key is appended and a present key is rewritten in place. `Array.find` and
  `Array.filter` are `Seqs.FirstWhere` and `Seqs.Filter`.
- **The record shapes** (module `Schema`): users, orders and order files, the
  insert shapes that leave out the store-assigned fields, and the round trip
  between the two. The declared constraints are predicates: order codes and
  usernames are unique, and every file references a stored order. The store does
  not enforce them; the lemmas say when its operations keep them and when they
  break them.
- **The print price** (module `PrintSettings`). Money is in paise: 1.50 per
  black-and-white copy, 4.00 per copy of any other print type, and 2.50 more per
  copy when double-sided. The total is that rate times the number of copies. The
  copies stepper never goes below one copy.
- **The operator dashboard** (module `AdminDashboard`): the client-side status
  reducer, the status badge colour and icon, and the one-click status action
  ("Start Printing" for a pending order, "Mark Complete" otherwise). It also has
  the summary cards: the order count, the pending and printing counts, and the
  revenue.

Wall-clock time enters only as a `now: Timestamp` parameter. Asynchronous
operations are ordinary functions, because nothing in the store runs
concurrently.

The store checks nothing about what it is given. It stores an order whose code
is already taken (`Storage.DuplicateCodeIsStored`) and a file whose order does
not exist (`Storage.CreateOrderFileWithoutParent`). `Storage.UpdateOrderStatus`
accepts any string as a status, with no transition rule between statuses. There
is no page-range parser: the price ignores the page count and the page-range
choice (`PrintSettings.PriceIgnoresPaperAndRange`).

One behaviour is modelled as intended rather than as written. When an order is
created without a status, the code leaves the status absent, and the model's
store fills in the column default "pending" instead. `Schema.SpreadOrder` is the
record as the code builds it, and the "## Findings" section shows the difference.

## Model

| member | source | states |
|---|---|---|
| `OrderedMap.Get` | server/storage.ts:70-72 | `Map.get`: returns none exactly when no binding has the key; otherwise it returns a value stored under that key |
| `OrderedMap.Put` | server/storage.ts:87-93 | `Map.set`: on a present key the length and key order stay the same and only that key's binding changes; on a new key the binding is appended; afterwards the key reads back the new value and every other key reads as before |
| `OrderedMap.IdTableValuesIncreasing` | server/storage.ts:80-82 | the values of an id-keyed table are listed in strictly increasing id order |
| `OrderedMap.IdTableGet` | server/storage.ts:70-72 | looking up an id in an id-keyed table finds the listed record with that id, or none when no listed record has it |
| `OrderedMap.IdTableAppend` | server/storage.ts:58-66 | storing under the next counter value appends; the table stays id-keyed and increasing with the counter one higher; the listing gains exactly that value at the end |
| `OrderedMap.IdTableReplace` | server/storage.ts:87-92 | rewriting a stored id in place keeps the table id-keyed; the listing keeps its length; only the positions holding that id change, and they hold the new value |
| `Seqs.FirstWhere` | server/storage.ts:74-78 | `Array.find`: none exactly when no element matches; otherwise a matching element with no match before it |
| `Seqs.FirstWhereSnoc` | server/storage.ts:74-78 | appending an element never changes an earlier match; the new element is found only when nothing before it matched |
| `Seqs.Filter` | server/storage.ts:109-113 | `Array.filter`: every kept element matches and comes from the input; every matching input element is kept; the result is never longer than the input |
| `Seqs.FilterSingleton` | server/storage.ts:109-113 | a single element is kept exactly when it matches; with `Seqs.FilterAppend` this fixes the order and multiplicity of every result, element by element |
| `Seqs.FilterAppend` | server/storage.ts:109-113 | filtering keeps relative order: filtering a concatenation is concatenating the filtered parts |
| `Seqs.FilterKeepsIncreasing` | server/storage.ts:109-113 | a filtered list of records in increasing id order is still in increasing id order |
| `Schema.NewUser` | server/storage.ts:50-55 | a created user carries the assigned id, and dropping the id gives back the insert fields |
| `Schema.UserRoundTrip` | shared/schema.ts:36-39 | a user is rebuilt exactly from its insert shape (username, password) and its id |
| `Schema.SpreadOrder` | server/storage.ts:60-65 | the order the object spread builds carries the new id and `now` as both timestamps, and dropping those gives back the insert shape exactly, an absent status included |
| `Schema.OmittedStatusIsStoredAsMissing` | shared/schema.ts:18 | for an insert without a status, the spread builds an order with no status, although the column is declared not-null, while the defaulting build stores "pending" |
| `Schema.SpreadAgreesWhenStatusGiven` | server/storage.ts:60-65 | the spread and the defaulting build give the same order exactly when the caller supplies a status |
| `Schema.NewOrder` | shared/schema.ts:18 | the order as the schema intends it: it always has a status, the caller's or "pending" when none was given; it carries the new id and `now` as both timestamps; dropping the store-assigned fields gives back the insert fields with that status |
| `Schema.OrderRoundTrip` | shared/schema.ts:41-45 | omitting `id`, `createdAt` and `updatedAt` from an order with a status and assigning them again rebuilds the order exactly |
| `Schema.OrderInsertRoundTrip` | shared/schema.ts:41-45 | an insert shape with a status is stored and read back unchanged |
| `Schema.NewOrderFile` | server/storage.ts:98-104 | a created file carries the new id and `now`; dropping them gives back the insert fields |
| `Schema.OrderFileRoundTrip` | shared/schema.ts:47-50 | omitting `id` and `createdAt` and assigning them again rebuilds the stored file exactly |
| `Storage.New` | server/storage.ts:31-38 | the constructor gives empty maps, every counter at 1, and a store satisfying the invariant |
| `Storage.AllUsers` | server/storage.ts:23-29 | users are held in creation order, which is increasing id order |
| `Storage.GetUser` | server/storage.ts:40-42 | none exactly when no stored user has the id; otherwise the stored user with that id |
| `Storage.GetUserByUsername` | server/storage.ts:44-48 | none exactly when no user has the username; otherwise the earliest-created user with it |
| `Storage.CreateUser` | server/storage.ts:50-55 | the user gets the current user counter as id; the counter advances by one; the user is appended; orders, files and their counters are untouched |
| `Storage.GetAllOrders` | server/storage.ts:80-82 | one entry per stored order, in creation order, which is increasing id order |
| `Storage.GetOrder` | server/storage.ts:70-72 | none exactly when no stored order has the id; otherwise the stored order with that id |
| `Storage.GetOrderByOrderId` | server/storage.ts:74-78 | none exactly when no order has the code; otherwise the earliest-created order with that code |
| `Storage.CreateOrder` | server/storage.ts:57-68 | the order gets the current order counter as id and `now` as both timestamps; its status is the caller's, or "pending" when none was given, and its other fields are the insert fields; the counter advances by one; the listing gains exactly this order at the end; users, files and their counters are untouched; the code is not checked |
| `Storage.UpdateOrderStatus` | server/storage.ts:84-96 | an unknown id gives none and the same store; a known id gives that order with only `status` and `updatedAt` replaced; the order stays at its position; every other order, the count, the counters, users and files are unchanged |
| `Storage.AllFiles` | server/storage.ts:23-29 | files are held in creation order, which is increasing id order |
| `Storage.CreateOrderFile` | server/storage.ts:98-107 | the file gets the current file counter as id, independent of the order counter; its other fields are the insert fields; the file is appended whether or not its order exists; orders and users are untouched |
| `Storage.GetOrderFiles` | server/storage.ts:109-113 | exactly the stored files whose `orderId` matches, in creation order |
| `Storage.CreateOrders` | server/storage.ts:57-68 | a run of order creations leaves the files and the file counter untouched |
| `Storage.CreateOrdersIds` | server/storage.ts:35-37 | successive creates hand out successive ids from the counter, and each appends behind the orders already stored |
| `Storage.FreshStoreOrderIds` | server/storage.ts:36 | in a fresh store the k-th order created (from 0) gets id k + 1, so ids are 1, 2, 3, … with none skipped or repeated |
| `Storage.GetOrderByOrderIdAfterCreate` | server/storage.ts:74-78 | after a create, a code lookup still returns the earlier order; it returns the new order only if no order had that code |
| `Storage.FreshUsernameKeepsUsernamesUnique` | shared/schema.ts:7 | creating a user with a username not yet stored keeps all usernames distinct |
| `Storage.CreateOrderKeepsStatusesPresent` | shared/schema.ts:18 | when every stored order has a status, creating an order keeps it so |
| `Storage.FreshCodeKeepsCodesUnique` | shared/schema.ts:13 | creating an order with a code not yet stored keeps all codes distinct |
| `Storage.DuplicateCodeIsStored` | server/storage.ts:57-68 | an existing code is not rejected: the order is added, codes are no longer distinct, and a code lookup still returns the earlier order |
| `Storage.CreateOrderKeepsReferences` | shared/schema.ts:28 | creating an order keeps every file pointing at a stored order |
| `Storage.CreateOrderFileKeepsReferences` | shared/schema.ts:28 | creating a file for a stored order keeps every file pointing at a stored order |
| `Storage.CreateOrderFileWithoutParent` | server/storage.ts:98-107 | a file whose order does not exist is still stored and listed for that order id, and the reference constraint no longer holds |
| `Storage.GetOrderFilesAfterCreate` | server/storage.ts:109-113 | a new file joins the end of its own order's file listing and no other listing |
| `Storage.UpdateOrderStatusKeepsConstraints` | server/storage.ts:87-93 | a status update changes no code and no id and writes a status, so unique codes, file references and present statuses survive it |
| `PrintSettings.PerCopy` | client/src/pages/PrintSettings.tsx:19-20 | the per-copy rate is 1.50, 4.00, 4.00 or 6.50; it is at most 4.00 for "bw" and at least 4.00 for any other print type |
| `PrintSettings.CalculatePrice` | client/src/pages/PrintSettings.tsx:18-22 | for one copy or more, the price lies between 1.50 and 6.50 per copy; zero copies cost nothing |
| `PrintSettings.BwSingleSidedPrice` | client/src/pages/PrintSettings.tsx:19-21 | black-and-white single-sided costs 1.50 per copy |
| `PrintSettings.OtherPrintTypesPricedAsColour` | client/src/pages/PrintSettings.tsx:19 | any print type other than "bw" costs what "color" costs, 4.00 per copy single-sided |
| `PrintSettings.DoubleSidedAddsSurcharge` | client/src/pages/PrintSettings.tsx:20 | double-sided costs exactly 2.50 per copy more than single-sided, for either print type |
| `PrintSettings.PriceStrictlyIncreasingInCopies` | client/src/pages/PrintSettings.tsx:21 | more copies always cost strictly more |
| `PrintSettings.PriceIgnoresPaperAndRange` | client/src/pages/PrintSettings.tsx:18-22 | the paper type and the page-range choice do not change the price |
| `PrintSettings.InitialPrice` | client/src/pages/PrintSettings.tsx:12-22 | the initial settings (standard, bw, single, all, 1 copy) price at 1.50 |
| `PrintSettings.Decrement` | client/src/pages/PrintSettings.tsx:115 | the minus button never goes below 1, and above 1 it takes one copy off |
| `PrintSettings.Increment` | client/src/pages/PrintSettings.tsx:123 | the plus button adds a copy, and the minus button undoes it from any count of at least 1 |
| `PrintSettings.Apply` | client/src/pages/PrintSettings.tsx:12-16 | no control on the page takes copies below 1 once it is at least 1 |
| `PrintSettings.CopiesStayPositive` | client/src/pages/PrintSettings.tsx:16 | after any sequence of actions from at least one copy, there is still at least one copy |
| `PrintSettings.ReachablePriceIsPositive` | client/src/pages/PrintSettings.tsx:16 | in every state reachable from the initial one, the price is at least 1.50 per copy and at least 1.50 |
| `AdminDashboard.UpdateOrderStatus` | src/pages/AdminDashboard.tsx:55-61 | the list keeps its length and order; entries with the id get the new status and keep every other field; other entries are unchanged |
| `AdminDashboard.UnknownIdLeavesListUnchanged` | src/pages/AdminDashboard.tsx:57-58 | an id that no entry has leaves the list equal to the input |
| `AdminDashboard.UpdateIsIdempotent` | src/pages/AdminDashboard.tsx:57-58 | applying the same update twice gives the list that applying it once gives |
| `AdminDashboard.LaterUpdateWins` | src/pages/AdminDashboard.tsx:57-58 | of two updates to the same id, only the later one shows |
| `AdminDashboard.UpdatesOnDifferentIdsCommute` | src/pages/AdminDashboard.tsx:57-58 | updates to different ids can be applied in either order |
| `AdminDashboard.GetStatusColor` | src/pages/AdminDashboard.tsx:63-71 | the colour is gray exactly for statuses other than Pending, Printing, Shipped and Delivered |
| `AdminDashboard.KnownStatusColoursDistinct` | src/pages/AdminDashboard.tsx:63-71 | the four known statuses get four different colours |
| `AdminDashboard.GetStatusIcon` | src/pages/AdminDashboard.tsx:73-81 | the package icon appears exactly for "Pending" and for unknown statuses; the file icon exactly for "Printing", the truck exactly for "Shipped", the check mark exactly for "Delivered" |
| `AdminDashboard.IconFollowsColour` | src/pages/AdminDashboard.tsx:63-81 | two statuses with the same colour have the same icon; same icon with different colours happens exactly for "Pending" against an unknown status |
| `AdminDashboard.QuickActionTarget` | src/pages/AdminDashboard.tsx:217-233 | the quick action targets "Printing" exactly when the status is "Pending", and "Delivered" otherwise |
| `AdminDashboard.QuickActionReachesDelivered` | src/pages/AdminDashboard.tsx:217-233 | two quick actions take any order to "Delivered", and another click leaves it there |
| `AdminDashboard.ApplyQuickAction` | src/pages/AdminDashboard.tsx:217-233 | clicking a card's quick action sets that card to "Printing" exactly when it was "Pending", and to "Delivered" otherwise |
| `AdminDashboard.CountStatus` | src/pages/AdminDashboard.tsx:108 | a status count never exceeds the number of orders |
| `AdminDashboard.CountIsFilterLength` | src/pages/AdminDashboard.tsx:108-120 | a status count is the length of the list filtered to the orders with that status |
| `AdminDashboard.DisjointCountsBounded` | src/pages/AdminDashboard.tsx:108-120 | the counts of two different statuses add up to at most the number of orders |
| `AdminDashboard.PendingPlusPrintingAtMostTotal` | src/pages/AdminDashboard.tsx:97-120 | the Pending and Printing cards add up to at most the Total Orders card |
| `AdminDashboard.ComputeRevenue` | src/pages/AdminDashboard.tsx:132 | the left-to-right sum equals the sum of all order amounts, exact in minor units, and is non-negative when every amount is |
| `AdminDashboard.RevenueNonNegative` | src/pages/AdminDashboard.tsx:132 | revenue is non-negative when every amount is |
| `AdminDashboard.RevenueUnchangedByUpdate` | src/pages/AdminDashboard.tsx:55-61 | a status update leaves the revenue unchanged |
| `AdminDashboard.InitialDashboardCards` | src/pages/AdminDashboard.tsx:9-53 | the starting list shows two orders, one pending and one printing, with 14.00 of revenue |

## Left out

- HTTP routing (server/routes.ts): Express plumbing and request validation by a library outside this model. Its handlers only compose the store operations modelled here. `parseInt` yielding `NaN` for a non-numeric id is not modelled.
- File upload and object storage (client/src/lib/fileUpload.ts, client/src/lib/amplify.ts): calls into a cloud storage service and environment configuration. `formatFileSize` uses floating-point logarithms.
- client/src/pages/AdminDashboard.tsx: the same status mapping, but its state lives on the server behind network mutations.
- Pages with no logic beyond display or hard-coded demo data: the home, header, app shell, upload, cart, checkout and tracking pages.
- Wall-clock time: `new Date()` becomes the `now` parameter.
- Promises: the store's asynchronous methods are synchronous functions, because nothing in the code runs concurrently.
- Display rounding with `toFixed(2)`, and the icon components (modelled as an `Icon` tag).
- `Storage.CreateOrder`: fills in the column default "pending" for a missing status. The code as written stores the spread record with no status (`Schema.SpreadOrder`); see "## Findings".
- `Storage.FreshStoreOrderIds`, `Storage.CreateOrdersIds`: ids, the three counters and the copies count are unbounded integers. JavaScript numbers stop advancing under `++` beyond 2^53, after which ids would repeat; that limit is not modelled.
- `PrintSettings.CalculatePrice`: uses exact integer paise instead of IEEE doubles. The two agree for any realistic number of copies, because 1.5, 4, 2.5 and 6.5 are exact in binary.
- `AdminDashboard.ComputeRevenue`: sums exact minor units. The source adds floating-point amounts, which can round for amounts that are not exact in binary.
- `totalAmount` is declared `decimal(10, 2)`. It is modelled as unbounded integer minor units; the precision of 10 digits is not enforced by the in-memory store and is not modelled.
- `printOptions` is a JSON document that the store carries verbatim. It is modelled as an opaque string.
- User passwords are stored as given. No authentication exists in the code, and none is modelled.

## Findings

| source | as written | input that shows it | evidently intended | confidence | as-written member | corrected member |
|---|---|---|---|---|---|---|
| server/storage.ts:60-65 | the object spread copies `status` only if the caller sent one, and the insert shape lets the caller leave it out, because the column has a default | an order insert with no `status` field: the stored order has no status | the stored order gets the column default "pending", as `status` is declared not-null with that default (shared/schema.ts:18) | medium, not executed: this relies on the insert schema leaving the defaulted column optional without filling it in | `Schema.SpreadOrder`, `Schema.OmittedStatusIsStoredAsMissing` | `Schema.NewOrder`, `Storage.CreateOrderKeepsStatusesPresent` |
