# FlatMate workflow core in Dafny

A model of the business rules inside FlatMate's admin and member dialogs,
lifted out of the React components into pure functions over an explicit store:

- **Query workflow** (`ViewQueriesModal.jsx`, `ContactAdminModal.jsx`): a member
  submits a query (validated, trimmed, created `open`); the admin sees the
  queries newest first, filters them by status, marks them resolved or open
  again, and replies. A reply is pushed to the asking member's inbox.
- **Receipt and ledger** (`CreateReceiptModal.jsx`): the member directory
  projected from the user table, the member search, the amount prefilled on
  selection, and receipt creation. Receipt creation validates its input, then
  runs four store calls in order. It writes the ledger entry, reads the member
  afresh, updates dues/paid/lastPayment, and notifies the admins.

Layout, one module per concern:

| file | module | contents |
|---|---|---|
| `wrappers.dfy` | `Wrappers` | `Option`, `Result` |
| `text.dfy` | `JsText` | `trim`, `||` fallbacks, ASCII `toLowerCase`, `includes`, decimal and `en-IN` rendering |
| `seqs.dfy` | `Seqs` | order-preserving `Filter`, subsequences, sequences without repeats |
| `table.dfy` | `Table` | a store path as ordered key/value rows; `Lookup` and `Put` (write in place) |
| `store.dfy` | `Store` | `User`, `Query`, `Reply`, `Receipt`, `Notification`, `Store`, `Fault`, `Outcome` |
| `view_queries.dfy` | `ViewQueries` | query list, status filter, status change, reply |
| `contact_admin.dfy` | `ContactAdmin` | query submission |
| `create_receipt.dfy` | `Receipts` | directory, search, prefill, receipt id, receipt creation |
| `scenarios.dfy` | `Scenarios` | properties spanning several handlers, and two worked examples |

Modelling choices:

- The store is a `Store` value. `users` and `queries` are ordered tables of
  key/value rows, since a snapshot enumerates children in key order.
  `recentPayments` and `adminNotifications` are append-only sequences.
  `userNotifications` maps a member id to that member's inbox.
- Each handler is a function that takes the store and returns an `Outcome`.
  The outcome holds the resulting store and either a value or an `Error`:
  `Rejected(reason)` for input refused before any write, or
  `OperationFailed(step)` when store call number `step` throws.
  Which call throws is the input `Fault` (`NoFault` or `FailAt(k)`).
  Writes made before the failing call stay in the returned store, as in the
  source, which never rolls back.
- `Date.now()` is the parameter `now`. `Math.random()` is a fraction
  `num / den` with `0 <= num < den`. The key of a submitted query is a
  parameter. The localized date string is an opaque parameter `today`.
- The amount field is `Option<int>`: `None` is the empty field, and amounts
  are whole rupees.
- JavaScript `a || b || "default"` over optional strings is `FirstPresent`:
  an empty string counts as absent.

Two details of the code are easy to misread:

- Re-resolving a resolved query rewrites `resolvedAt` with the new time;
  `SetStatusTwice` states that the later call wins.
- The name default of a submitted query is "Unknown Member"; the member
  directory's is "Unknown".

## Model

| member | source | states |
|---|---|---|
| ViewQueries.QueryList | src/Components/Admin/ViewQueriesModal.jsx:22-24 | the admin's list is ordered newest first by `timestamp`, a missing timestamp counting as 0, and is a permutation of the stored entries |
| ViewQueries.QueryListRowsAreStored | src/Components/Admin/ViewQueriesModal.jsx:22-23 | every listed entry carries its store key as id, paired with the record stored under that key |
| ViewQueries.QueryListStable | src/Components/Admin/ViewQueriesModal.jsx:24 | the sort is stable: entries with equal timestamps keep their store order |
| ViewQueries.FilterByStatus | src/Components/Admin/ViewQueriesModal.jsx:109-113 | the "open"/"resolved" tab holds exactly the entries with that status, each as often as in the list and in list order; any other filter value returns the list unchanged |
| ViewQueries.FilterKeepsNewestFirst | src/Components/Admin/ViewQueriesModal.jsx:109-113 | a filtered tab of the sorted list is still newest first |
| ViewQueries.SetStatus | src/Components/Admin/ViewQueriesModal.jsx:34-53 | a status change sets `status`, sets `resolvedAt` to now exactly when the new status is "resolved" and clears it otherwise, leaves every other field, query and store path unchanged, and keeps the stored queries in their order; a failed update changes nothing |
| ViewQueries.ResolveThenReopen | src/Components/Admin/ViewQueriesModal.jsx:37-40 | resolving then reopening leaves the query open with no `resolvedAt`, every other field as before |
| ViewQueries.ResolveThenReopenRestores | src/Components/Admin/ViewQueriesModal.jsx:37-40 | resolving then reopening a query that was open and unresolved gives back the original store |
| ViewQueries.SetStatusTwice | src/Components/Admin/ViewQueriesModal.jsx:37-40 | setting the same status twice equals setting it once at the later time |
| ViewQueries.SendReply | src/Components/Admin/ViewQueriesModal.jsx:56-106 | a blank reply is rejected with no write; otherwise exactly one reply (trimmed text, now, "admin") is appended after the existing ones; a `query_reply` notification with the same text and the query id goes to the member's inbox iff the member id is truthy and both writes succeed; a failed reply write writes nothing; a failed notification reports `OperationFailed` for that call with the reply kept; no other inbox or query changes, and the stored queries keep their order |
| ViewQueries.AdminWritesKeepKeysUnique | src/Components/Admin/ViewQueriesModal.jsx:34-89 | a status change and a reply both keep the keys under `queries` unique |
| ViewQueries.AdminReplyWellFormed | src/Components/Admin/ViewQueriesModal.jsx:66-75 | a stored reply is non-empty, trimmed, at most 500 characters and from "admin" |
| ContactAdmin.SubmitQuery | src/Components/Member/ContactAdminModal.jsx:13-41 | a blank subject is rejected first, then a blank message, with no write; a failed write reports `OperationFailed` for that call and leaves the store as it was; success puts exactly the new query under the generated key, appends it when the key is new, and touches nothing else |
| ContactAdmin.SubmitQueryKeepsKeysUnique | src/Components/Member/ContactAdminModal.jsx:29-41 | submitting a query keeps the keys under `queries` unique |
| ContactAdmin.NewQueryShape | src/Components/Member/ContactAdminModal.jsx:37-40 | a new query is open, stamped now, unresolved, without replies; subject and message are non-empty, trimmed and within 100/1000 characters |
| ContactAdmin.NewQueryKeepsText | src/Components/Member/ContactAdminModal.jsx:37-38 | the stored subject and message are fixed points of trimming |
| ContactAdmin.NewQueryIdentity | src/Components/Member/ContactAdminModal.jsx:33-36 | the owner is the caller's uid or none; name falls back fullName, name, displayName, "Unknown Member"; flat falls back flatNumber, flat, "N/A"; email defaults to ""; a missing profile gives all defaults |
| Receipts.ProjectMembers | src/Components/Admin/CreateReceiptModal.jsx:24-32 | the directory is no longer than the user table, names only stored user ids, never shows an empty name or flat, and its ids are a subsequence of the store's keys, so entries follow store order |
| Receipts.DirectoryListsEachMemberOnce | src/Components/Admin/CreateReceiptModal.jsx:24-32 | with unique store keys, no two directory entries share an id, so each stored member is listed exactly once |
| Receipts.ProjectedIsStoredMember | src/Components/Admin/CreateReceiptModal.jsx:24-32 | every directory entry is the projection of a stored user whose role is "member" |
| Receipts.StoredMemberIsProjected | src/Components/Admin/CreateReceiptModal.jsx:24-32 | every stored user whose role is "member" appears in the directory |
| Receipts.ToMemberFallbacks | src/Components/Admin/CreateReceiptModal.jsx:26-31 | name falls back fullName, name, displayName, "Unknown"; flat falls back flatNumber, flat, "N/A"; email defaults to ""; dues default to 0 |
| Receipts.FilterMembers | src/Components/Admin/CreateReceiptModal.jsx:50-54 | the search keeps exactly the members whose lower-cased name, flat or email includes the lower-cased term, each as often as in the directory, in directory order |
| Receipts.FilterMembersEmptyTerm | src/Components/Admin/CreateReceiptModal.jsx:50-54 | an empty search term lists the whole directory unchanged |
| Receipts.FilterMembersIgnoresCase | src/Components/Admin/CreateReceiptModal.jsx:50-54 | lower-casing the term does not change the result |
| Receipts.PrefillAmount | src/Components/Admin/CreateReceiptModal.jsx:199 | picking a member fills in its dues when positive and leaves the field empty exactly when they are not positive, so the prefilled amount passes validation iff the dues are positive |
| Receipts.RandomSuffix | src/Components/Admin/CreateReceiptModal.jsx:72 | `floor(r * 9000 + 1000)` lies in [1000, 9999] for every `r` in [0, 1) |
| Receipts.ReceiptIdRoundTrip | src/Components/Admin/CreateReceiptModal.jsx:72 | the time and suffix can be read back out of a receipt number |
| Receipts.ReceiptIdCollision | src/Components/Admin/CreateReceiptModal.jsx:72 | two receipt numbers are equal iff they were made in the same millisecond with the same suffix |
| Receipts.GeneratedReceiptIdShape | src/Components/Admin/CreateReceiptModal.jsx:72 | a generated receipt number is "RCPT-", the time in decimal, "-" and exactly four digits |
| Receipts.MethodNote | src/Components/Admin/CreateReceiptModal.jsx:83-88 | the note is the typed note when non-empty, otherwise the default for cash, upi, card, bank_transfer or "Payment received"; never empty |
| Receipts.ReceiptBalances | src/Components/Admin/CreateReceiptModal.jsx:92-93 | `previousDue` is the member's dues, `remainingDue` is never negative, is at most `previousDue` when that is non-negative, is `previousDue - amount` when the amount does not exceed it, and 0 otherwise |
| Receipts.ApplyPaymentBalances | src/Components/Admin/CreateReceiptModal.jsx:104-115 | new dues are never negative, never exceed the old dues when those are non-negative, fall strictly when positive, equal dues minus amount when covered; paid grows by exactly the amount; `lastPayment` is now; dues plus paid grow only by the overpayment; every other user field is untouched |
| Receipts.CreateReceipt | src/Components/Admin/CreateReceiptModal.jsx:56-145 | no member or an empty/non-positive amount is rejected with zero writes; otherwise the ledger entry, the member update (from a fresh read) and the admin notification are committed in that order up to the failing call and not after it; success returns the receipt number; queries and member inboxes never change |
| Receipts.CreateReceiptKeepsKeysUnique | src/Components/Admin/CreateReceiptModal.jsx:104-115 | a receipt keeps the keys under `users` unique, whichever call fails |
| Receipts.ReceiptAgreesWithLedger | src/Components/Admin/CreateReceiptModal.jsx:92-115 | when the picked entry is the current projection of the stored member, the receipt's `remainingDue` equals the member's new dues and `previousDue` the old dues |
| Receipts.PrefilledPaymentSettles | src/Components/Admin/CreateReceiptModal.jsx:196-200 | paying the prefilled amount for a member with positive dues brings dues to 0 and adds the dues to paid |
| JsText.Trim | src/Components/Member/ContactAdminModal.jsx:16-24 | trimming yields a string with no whitespace at either end, no longer than its input, empty iff the input is all whitespace |
| JsText.TrimFramedByBlanks | src/Components/Member/ContactAdminModal.jsx:37-38 | trimming removes only whitespace: the input is the trimmed text framed by blanks |
| JsText.TrimIdempotent | src/Components/Admin/ViewQueriesModal.jsx:72 | trimming twice is trimming once |
| JsText.FirstPresent | src/Components/Admin/CreateReceiptModal.jsx:28-30 | a `||` chain yields the first truthy candidate, and the default when there is none |
| JsText.Includes | src/Components/Admin/CreateReceiptModal.jsx:51-53 | `includes` holds iff the term occurs at some position of the text |
| JsText.FormatIndianUngroups | src/Components/Admin/CreateReceiptModal.jsx:122 | the `en-IN` rendering of the amount only inserts commas into its decimal digits |
| JsText.FormatIndianGrouped | src/Components/Admin/CreateReceiptModal.jsx:122 | the `en-IN` rendering is up to three digits alone, or groups of two digits, a comma and the last three digits; with the previous row this fixes the rendering |
| JsText.ToLower | src/Components/Admin/CreateReceiptModal.jsx:51-53 | ASCII lower-casing, standing for `toLowerCase`, keeps the length, leaves no upper-case ASCII letter, and lowers each character on its own |
| JsText.NatToString | src/Components/Admin/CreateReceiptModal.jsx:72 | `${now}` is a non-empty string of decimal digits without a leading zero |
| JsText.ParseNatToString | src/Components/Admin/CreateReceiptModal.jsx:72 | reading the digits of `${now}` back gives `now`, so distinct times render differently |
| Store.NotifyMember | src/Components/Admin/ViewQueriesModal.jsx:79-88 | a push under `userNotifications/<id>` appends the notification to that inbox only and changes nothing else in the store |
| Receipts.PaymentNotificationContents | src/Components/Admin/CreateReceiptModal.jsx:118-128 | the admin notification is an unread "payment" titled "Manual Receipt Created", stamped now, carrying amount, member name and flat; its message opens with the receipt number and the amount can be read back after the `₹` sign |
| Scenarios.SubmittedQueryListedAsOpen | src/Components/Member/ContactAdminModal.jsx:29-41 | a freshly submitted query appears in the admin's list under the "open" tab |
| Scenarios.ReplyReachesAsker | src/Components/Admin/ViewQueriesModal.jsx:78-89 | replying through a submitted query's stored owner puts exactly one notification in the asker's inbox and none elsewhere |
| Scenarios.ReplyWithoutOwnerNotifiesNobody | src/Components/Admin/ViewQueriesModal.jsx:78 | a reply to a query without an owner records the reply and writes no inbox |
| Scenarios.FailedReplyNotifiesNobody | src/Components/Admin/ViewQueriesModal.jsx:70-89 | when the reply write fails, the store is unchanged, so no notification is written |
| Scenarios.LeakScenario | src/Components/Admin/ViewQueriesModal.jsx:66-89 | the query "Leak" answered "Plumber dispatched" gains that one reply, and the asker's inbox gains a `query_reply` with that text and the query id |
| Scenarios.PartialPaymentScenario | src/Components/Admin/CreateReceiptModal.jsx:92-115 | dues 5000 and paid 10000 with a 2000 cash receipt give dues 3000, paid 12000, a receipt with previous due 5000, remaining due 3000 and note "Paid in cash" |

## Left out

- ViewQueries.SetStatus: requires the query id to be stored. The handler is only called from a listed query (ViewQueriesModal.jsx lines 316 and 323). The stub record a store update creates at a missing path is not modelled.
- ViewQueries.SendReply: requires the query id to be stored, for the same reason (line 286). The reply text is at most 500 characters, the `maxLength` of its input (line 269), so this is a caller precondition.
- ContactAdmin.SubmitQuery: the 100- and 1000-character limits come from the input `maxLength` attributes (lines 107 and 123), so they are caller preconditions. The handler itself does not check them.
- Receipts.CreateReceipt: the 200-character note limit comes from its textarea's `maxLength` (line 306), so it is a caller precondition.
- JsText.ToLower, Receipts.FilterMembers: lower-casing covers ASCII letters only. `toLowerCase` also folds non-ASCII letters (`"É"` to `"é"`) and can change the length (`"İ"` lowers to two code units).
- Receipts.ProjectMembers: key order is taken as the snapshot's order. Object.entries lists integer-like keys first; that difference is not modelled.
- Table.Put: a key not yet in the table is appended after the existing rows, so a new key is taken to sort after every existing key. Generated push keys do; a `users/<id>` record that the member update creates for a missing member may not.
- ViewQueries.QueryList: the tie order is the store's key order, as the stable sort gives.
- Floating-point amounts (`step="0.01"`) and `Number("abc")`, which is NaN and passes the `<= 0` check: amounts are whole numbers after parsing.
- Rendering, toasts, the loading flags, and the form reset on close: presentation with no rule to verify.
- The `onValue` subscription and its unsubscribe: each snapshot is modelled as the current store.
- Two concurrent receipts for one member can lose an update, because each reads then writes. The model is single-threaded, so the member update reads the store as it stands.
- `Date.now`, `Math.random`, `toLocaleDateString` and the key of a submitted query are inputs, not computed.
- The push keys of replies (`queries/<id>/replies`), receipts (`recentPayments`) and notifications are not modelled: these lists are append-only sequences, and a `Reply` carries no id.
- ContactAdmin.SubmitQuery, ViewQueries.SendReply and Receipts.CreateReceipt: the `maxLength` limits are counted in Dafny characters (Unicode scalar values), whereas HTML `maxLength` counts UTF-16 code units, so a text with characters outside the Basic Multilingual Plane is measured differently.
- `src/utils/razorpayConfig.js` holds gateway constants only; the SDK it configures is not part of this model. `src/Components/Admin/Footer.jsx` is static markup.
