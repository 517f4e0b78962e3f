# easy-split: receipt ingestion, invite codes and the profile cache

This project is a verified Dafny model of the deterministic logic in easy-split, a bill-splitting web
application. Users form communities, upload receipt images, and split the extracted line items.
Three parts are modelled:

1. **Receipt ingestion** (`app/api/ocr/route.ts`).
   - `parseItems` walks the document-analysis result. It uses only the first document. Each line
     item gets the fallbacks `"Unknown Item"` and 0. Items whose price is not positive are dropped.
     When the reported total is missing or not positive, the total is recomputed as the sum of the
     kept prices.
   - `POST` validates the request and derives the bill name ("<merchant> Receipt" or "Bill <time>").
     It commits one bill record and one record per item in a single batch.
   - Files: `receipt.dfy` (module `Receipt`) and `bill_ingest.dfy` (module `BillIngest`).
   - The analysis result is a typed schema: every property the source reaches with optional chaining
     is an `Option`. Amounts are whole pence (`int`); the exchange rate is a `real`.
   - The document store is a `Store` class whose field `docs` maps document paths to records. Its
     `Commit` method applies a whole batch with one assignment: either all writes land or none does.
2. **Invite codes and membership guards** (`app/dashboard/page.tsx`).
   - `generateInviteCode` draws 6 characters from a 32-character alphabet. Join codes are
     normalised with `trim()` and then `toUpperCase()`.
   - A guard map records, per community, whether the user's member document still exists. The map
     splits the user's memberships into stale ones (guard exactly `false`) and visible ones.
   - Files: `invite_codes.dfy` (module `InviteCodes`) and `membership_guards.dfy` (module
     `MembershipGuards`).
3. **Profile-name cache** (`lib/useUserProfiles.ts`).
   - The fill loop of `fetchProfiles` skips uids that already have a name. Every other uid gets
     `displayName || email || uid`, or the uid itself when there is no document or the read fails.
   - `getDisplayName` looks a uid up, with the uid as fallback.
   - File: `user_profiles.dfy` (module `UserProfiles`).

`wrappers.dfy` holds `Option` and `Result`.

Operations that change state in the source are methods, each proved against a specification function:
- `ParseItems`: the push loop, proved equal to `Parse`.
- `Post`: builds the batch with a loop, then calls `Store.Commit`.
- `GenerateInviteCode`: the counted loop.
- `FillProfiles`: the loop with `continue`.

The record updates of the guard map and the two `filter`s are functions.

Inputs that the source takes from the outside world are parameters:
- `analysis`: the downloaded and analysed receipt, or the message of the error raised while
  downloading or analysing it.
- `billId`: the value of `uuidv4()`.
- `now`: the value of `Date.now()`.
- `localeNow`: the value of `new Date().toLocaleString()`.
- `itemKey(k)`: the id `itemsCol.doc()` generates for the k-th item.
- `commitFailure`: an error reported by the commit, if any.
- `picks`: the alphabet indices that `Math.random()` selects.
- `oracle`: what `getDoc` returns for each uid.

Details of the code's fallbacks that the model keeps:
- An item description that is present but empty becomes `"Unknown Item"`, just like a missing one
  (JavaScript `||`, app/api/ocr/route.ts:72).
- The `name &&` part of the item filter can never fail, because the name always has a fallback.
  `Receipt.KeptItems` proves that every kept name is non-empty.
- A merchant name that is an empty string gives the name "Bill <time>" (app/api/ocr/route.ts:124-127).

## Model

| member | source | states |
|---|---|---|
| `Wrappers.Truthy` | app/api/ocr/route.ts:107 | JavaScript truthiness of an optional string: falsy exactly for a missing value and for `""` (also the `||` tests at app/api/ocr/route.ts:72 and lib/useUserProfiles.ts:28) |
| `Receipt.Documents` | app/api/ocr/route.ts:46-47 | the analysis result's `documents` when it is there, and the empty list when `analyzeResult` or `documents` is missing |
| `Receipt.FieldsOf` | app/api/ocr/route.ts:53 | `document.fields || {}`: the document's fields when present, otherwise fields with nothing in them |
| `Receipt.ItemEntries` | app/api/ocr/route.ts:59-60 | `Items?.valueArray || []`: the entries when `Items` and `valueArray` are present, otherwise none |
| `Receipt.ItemName` | app/api/ocr/route.ts:72 | the description when it is truthy, otherwise "Unknown Item"; never empty |
| `Receipt.ItemPrice` | app/api/ocr/route.ts:73 | the present amount of `TotalPrice`, 0 when `TotalPrice` is missing; a non-zero price is always the present amount |
| `Receipt.PushStep` | app/api/ocr/route.ts:66-83 | one turn of the loop: an entry without an object adds nothing; otherwise `{name, price}` is appended exactly when `name && price > 0` |
| `Receipt.TextOr` | app/api/ocr/route.ts:72 | `valueString || fallback`: the string when it is present and non-empty, otherwise the fallback |
| `Receipt.ExtractItem` | app/api/ocr/route.ts:72-82 | the pushed `{ name, price }`: the truthy description or "Unknown Item", never empty; the present amount of `TotalPrice`, or 0 when it is missing |
| `Receipt.KeptItems` | app/api/ocr/route.ts:63-84 | every kept item has a price > 0 and a non-empty name; there are never more kept items than entries |
| `Receipt.AmountOf` | app/api/ocr/route.ts:73 | `valueCurrency?.amount || 0`: the amount when it is present, otherwise 0; a non-zero result is always the present amount |
| `Receipt.Qualifies` | app/api/ocr/route.ts:81 | `name && price > 0` holds exactly when the entry has an object with a positive price: the name test never fails |
| `Receipt.SumPrices` | app/api/ocr/route.ts:94 | the `reduce` of the prices is ≥ 0 when no price is negative, and > 0 when the list is non-empty and every price is positive |
| `Receipt.ReportedTotal` | app/api/ocr/route.ts:87-88 | `Total?.valueCurrency?.amount || 0`: a present amount is returned; 0 when the field is missing; a non-zero result is always the reported amount |
| `Receipt.MerchantName` | app/api/ocr/route.ts:124-125 | none when there is no document; otherwise exactly the first document's `MerchantName?.valueString`, present when it is present |
| `Receipt.Parse` | app/api/ocr/route.ts:44-101 | no documents (missing or empty list) gives `{items: [], total: 0}`; all items well formed; a reported total > 0 is returned unchanged; otherwise the total is the sum of the kept prices, is ≥ 0, and is 0 exactly when no item is kept |
| `Receipt.ParseItems` | app/api/ocr/route.ts:44-101 | the push loop (skip entries without `valueObject`, push when `name && price > 0`, then the total fallback) returns exactly `Parse(result)` |
| `Receipt.KeptItemsAppend` | app/api/ocr/route.ts:63-84 | extraction distributes over concatenation of entry lists, so the kept items keep input order and appear once each |
| `Receipt.SkipsUnqualified` | app/api/ocr/route.ts:66-83 | an entry with no `valueObject`, or a price that is not positive, contributes nothing where it stands |
| `Receipt.KeepsQualified` | app/api/ocr/route.ts:81-83 | a qualifying entry contributes exactly its `{name, price}`, between the items of the entries before and after it |
| `Receipt.KeptItemsMembership` | app/api/ocr/route.ts:63-84 | an item is kept if and only if some qualifying input entry extracts to it |
| `Receipt.ItemFallbacks` | app/api/ocr/route.ts:72-73 | a missing or empty description gives "Unknown Item", a real one is kept; a missing price gives 0 and the entry is dropped; an entry without an object is dropped |
| `Receipt.SumPricesAppend` | app/api/ocr/route.ts:94 | the reduce over a concatenation is the sum of the two reduces |
| `Receipt.SumOfWellFormed` | app/api/ocr/route.ts:93-96 | with positive prices the recomputed total is ≥ 0, and 0 if and only if no item is kept |
| `Receipt.FirstDocumentOnly` | app/api/ocr/route.ts:46-53 | documents after `documents[0]` change neither the parse nor the merchant name |
| `Receipt.MissingItemsAreEmpty` | app/api/ocr/route.ts:53-60 | missing `fields`, missing `Items` or missing `valueArray` yields no items, and then total 0 unless a positive total is reported |
| `Receipt.ParsedItemsAreKept` | app/api/ocr/route.ts:59-84 | the parsed items are the kept items of the first document's entries |
| `Receipt.MilkAndBread` | app/api/ocr/route.ts:63-96 | Milk 1.50 and Bread 0.00 with no total parse to `[Milk 1.50]` with total 1.50 |
| `Receipt.ReportedTotalWins` | app/api/ocr/route.ts:87-93 | a reported total of 12.00 is kept although the items sum to 9.50 |
| `BillIngest.ValidateRequest` | app/api/ocr/route.ts:106-109 | a request passes if and only if `communityId`, `storagePath` and `createdBy` are all truthy; the rate is the given one, or 9 when it is absent |
| `BillIngest.Status` | app/api/ocr/route.ts:108 | a created bill answers 200 (the default of `NextResponse.json`, route.ts:167), a bad request 400, a server error 500 |
| `BillIngest.ErrorMessage` | app/api/ocr/route.ts:179-181 | a 500 carries the error's message, or "Internal error" when the message is empty; never an empty message |
| `BillIngest.BillName` | app/api/ocr/route.ts:121-129 | "<merchant> Receipt" when the first document has a non-empty merchant name, otherwise "Bill <time>" |
| `BillIngest.NewBill` | app/api/ocr/route.ts:141-152 | the bill record has the generated id, the request's community, creator, path and rate, participants `[createdBy]`, currency "GBP", the parsed total, the derived name and the creation time |
| `BillIngest.ItemWrite` | app/api/ocr/route.ts:156-162 | an item write goes to the item's path under the bill and stores the generated id, the parsed name and price, and `claimedBy = null` |
| `BillIngest.ApplyWrites` | app/api/ocr/route.ts:165 | committing a batch keeps every existing path, and the last write of the batch is what its path holds afterwards |
| `BillIngest.BillBatch` | app/api/ocr/route.ts:139-163 | the batch has `1 + items.length` writes: first the bill, then item k at position k + 1 under the bill with its generated key |
| `BillIngest.Store.Commit` | app/api/ocr/route.ts:165 | the store becomes the old store with every write of the batch applied, or stays unchanged and the error is returned |
| `BillIngest.Post` | app/api/ocr/route.ts:103-183 | the status is 400 for a missing field, 500 for a failed analysis or commit, and 200 otherwise; a missing field gives 400 with the fixed message and no write; a failed download or analysis gives 500 and no write; a failed commit gives 500 and no write; otherwise the response is `{billId, itemsCount: items.length, total}` and the store is the old store with exactly `BillBatch` applied |
| `BillIngest.BatchByElements` | app/api/ocr/route.ts:155-163 | the batch built by the `forEach` loop, element by element, is `BillBatch` |
| `BillIngest.ApplyWritesFrame` | app/api/ocr/route.ts:139-165 | a commit adds exactly the batch's paths and leaves every other document unchanged |
| `BillIngest.ApplyWritesDistinct` | app/api/ocr/route.ts:139-165 | when the paths are distinct, each document written by the batch holds the record that was written to it |
| `BillIngest.PathsOfDistinctCard` | app/api/ocr/route.ts:139-163 | a batch with distinct paths writes as many documents as it has writes |
| `BillIngest.BatchPaths` | app/api/ocr/route.ts:133-163 | distinct item keys give distinct paths, all under communities/{communityId}/bills/{billId} |
| `BillIngest.FreshDocsOfBill` | app/api/ocr/route.ts:139-165 | where a bill has no documents, a batch of distinct paths under that bill leaves exactly its own writes there |
| `BillIngest.CommitWritesBillAndItems` | app/api/ocr/route.ts:139-165 | after the commit, the new bill has exactly `1 + items.length` documents: the bill and its items |
| `BillIngest.CommittedRecords` | app/api/ocr/route.ts:141-162 | the stored bill has `participants = [createdBy]`, currency "GBP", the request's rate, the parsed total, the derived name and the request's fields; each stored item has its generated id, parsed name and price, and `claimedBy = null` |
| `BillIngest.TescoReceipt` | app/api/ocr/route.ts:126 | the merchant "Tesco" names the bill "Tesco Receipt" |
| `InviteCodes.GenerateInviteCode` | app/dashboard/page.tsx:22-27 | the code has length 6, character k is `chars[picks[k]]`, and every character is in the alphabet |
| `InviteCodes.AlphabetHasOnlyCodeChars` | app/dashboard/page.tsx:23 | every alphabet character is an upper-case letter other than I and O, or a digit from 2 to 9 |
| `InviteCodes.AlphabetCharacters` | app/dashboard/page.tsx:23 | the alphabet has 32 characters; a character is in it if and only if it is an upper-case letter other than I and O, or a digit from 2 to 9; so I, O, 0 and 1 never occur |
| `InviteCodes.EveryCodeIsGenerable` | app/dashboard/page.tsx:22-27 | every 6-character string over the alphabet is the code generated from some valid picks |
| `InviteCodes.TrimStart` | app/dashboard/page.tsx:136 | what is removed is a whitespace prefix, and the rest does not start with whitespace |
| `InviteCodes.TrimEnd` | app/dashboard/page.tsx:136 | what is removed is a whitespace suffix, and the rest does not end with whitespace |
| `InviteCodes.UpperChar` | app/dashboard/page.tsx:136 | upper-casing never turns whitespace into non-whitespace, or the reverse |
| `InviteCodes.ToUpper` | app/dashboard/page.tsx:136 | `toUpperCase` keeps the length and maps each character on its own |
| `InviteCodes.Trim` | app/dashboard/page.tsx:136 | `trim()` never lengthens; it leaves nothing exactly when the input is all whitespace; any result neither starts nor ends with whitespace |
| `InviteCodes.Normalize` | app/dashboard/page.tsx:136 | `trim().toUpperCase()` is empty exactly when the input is all whitespace, and never starts or ends with whitespace |
| `InviteCodes.JoinLookupCode` | app/dashboard/page.tsx:134-136 | there is no lookup exactly when nobody is signed in or the typed code is empty; otherwise the lookup uses the normalised code |
| `InviteCodes.TrimStartSkips` | app/dashboard/page.tsx:136 | leading whitespace is removed whatever follows it |
| `InviteCodes.TrimEndSkips` | app/dashboard/page.tsx:136 | trailing whitespace is removed whatever precedes it |
| `InviteCodes.TrimPadding` | app/dashboard/page.tsx:136 | whitespace padding around a string with non-whitespace ends is exactly what `trim` removes |
| `InviteCodes.CodeCharCases` | app/dashboard/page.tsx:136 | an alphabet character, typed in either case, is not whitespace and upper-cases to itself |
| `InviteCodes.TypedCodeNormalizes` | app/dashboard/page.tsx:136 | a generated code, typed with surrounding whitespace and in any mix of case, is looked up as exactly that code |
| `InviteCodes.GeneratedCodeIsNormal` | app/dashboard/page.tsx:136 | normalisation leaves a generated code unchanged |
| `InviteCodes.ToUpperIdempotent` | app/dashboard/page.tsx:136 | upper-casing twice gives the same as upper-casing once |
| `InviteCodes.CleanEndsUntrimmed` | app/dashboard/page.tsx:136 | a string without whitespace at either end is its own trim |
| `InviteCodes.NormalizeIdempotent` | app/dashboard/page.tsx:136 | normalising twice gives the same as normalising once |
| `MembershipGuards.OnSnapshot` | app/dashboard/page.tsx:71-74 | the entry for the community becomes `snap.exists()`; every other entry is unchanged; no other key appears |
| `MembershipGuards.OnError` | app/dashboard/page.tsx:79-82 | the entry for the community becomes `false`; every other entry is unchanged; no other key appears |
| `MembershipGuards.IsStale` | app/dashboard/page.tsx:96 | `=== false`: a membership without a guard entry is never stale; with an entry, it is stale exactly when the entry is `false` |
| `MembershipGuards.Stale` | app/dashboard/page.tsx:96 | the cleanup filter never yields more memberships than are listed (its members: `StaleMembers`) |
| `MembershipGuards.Visible` | app/dashboard/page.tsx:173 | the rendered filter never yields more memberships than are listed (its members: `VisibleMembers`) |
| `MembershipGuards.ShowsNoCommunities` | app/dashboard/page.tsx:182 | when "No communities yet" is shown, whatever the guards are, no community is listed and none is cleaned up |
| `MembershipGuards.StaleMembers` | app/dashboard/page.tsx:96 | a membership is stale if and only if it is listed and its guard is exactly `false` |
| `MembershipGuards.VisibleMembers` | app/dashboard/page.tsx:173 | a membership is visible if and only if it is listed and its guard is not `false` |
| `MembershipGuards.StaleVisiblePartition` | app/dashboard/page.tsx:96-173 | the stale and the visible lists together are the memberships list, as multisets and by length |
| `MembershipGuards.StaleOrVisible` | app/dashboard/page.tsx:96-173 | each listed membership is stale or visible, and never both |
| `MembershipGuards.UncheckedIsVisible` | app/dashboard/page.tsx:96-173 | a membership with no guard entry yet is visible and is not cleaned up |
| `MembershipGuards.GuardUpdateEffect` | app/dashboard/page.tsx:71-82 | either guard update, from the snapshot or from the error callback, leaves other communities' memberships as they were; the updated community's memberships are visible exactly when the document exists, and become stale on an error |
| `MembershipGuards.AllStaleShowsNothing` | app/dashboard/page.tsx:172-182 | when every listed membership is stale, nothing is listed, and "No communities yet" is not shown either, because it tests the unfiltered list |
| `UserProfiles.IsCached` | lib/useUserProfiles.ts:21 | `if (newProfiles[uid]) continue`: a uid without an entry is not cached; with one, it is cached exactly when the name is non-empty |
| `UserProfiles.Fetch` | lib/useUserProfiles.ts:24-30 | a uid the oracle does not mention reads as "no document"; otherwise the read yields what the oracle gives |
| `UserProfiles.ProfileName` | lib/useUserProfiles.ts:26-35 | a found profile gives `displayName`, else `email`, else the uid; no document or a failed read gives the uid; the name is one of these; it is non-empty for a non-empty uid |
| `UserProfiles.FillProfiles` | lib/useUserProfiles.ts:17-36 | the result's keys are the old keys plus the requested uids; cached non-empty names are untouched; entries not requested are untouched; every requested, uncached uid gets the name from its fetch; each non-empty requested uid ends with a non-empty name |
| `UserProfiles.RefreshProfiles` | lib/useUserProfiles.ts:13-41 | an empty uid list gives no update at all; otherwise the update is `newProfiles`: its keys are the cached ones plus the requested uids; cached names and unrequested entries are untouched; every requested, uncached uid gets the name from its fetch; each non-empty requested uid has a non-empty name |
| `UserProfiles.DisplayName` | lib/useUserProfiles.ts:50-52 | the cached name when it is present and non-empty, otherwise the uid; non-empty for a non-empty uid |

## Left out

- `analyzeReceipt` (the document-analysis client, its environment-variable check, base64 encoding and
  long-running poller) and the storage download are external. They are the single `analysis`
  parameter of `Post`: its result, or the message of whatever error they raise.
- `uuidv4`, `Date.now`, `toLocaleString` and `itemsCol.doc()` are nondeterministic, so they are
  parameters. The store lemmas assume two things about them:
  - the generated item keys are distinct. Firestore's random ids make a collision unlikely but do not
    rule it out;
  - nothing is stored yet under the new bill id (`CommitWritesBillAndItems`). `uuidv4` does not rule
    out a collision either.
- Firestore's atomicity and concurrency are not modelled. The all-or-nothing commit is one
  assignment to the store map, or no change when the commit fails.
- Prices are integer pence; IEEE doubles and NaN amounts are not modelled.
- Only values of the expected types are modelled. Not covered:
  - a JSON body that does not parse;
  - request fields that are not strings;
  - a `null` `documents[0]`, or a `null` entry in `valueArray`, which makes the source throw and answer 500;
  - the difference between `null` and an absent `exchangeRateGBPToCNY`: the default 9 applies only
    to an absent one.
- The `catch` around the bill-name derivation cannot fire on typed values, so it is not modelled.
- `docType` and the currency codes are carried in the datatypes, but nothing reads them.
- Console logging and the `debug` payload are not modelled; they influence no stored value.
- `InviteCodes.ToUpper`: maps only the ASCII letters a–z. JavaScript's full Unicode case mapping (for
  example "ß" to "SS") is not modelled. Invite codes are ASCII, so the invite-code lemmas are
  unaffected.
- `InviteCodes.GenerateInviteCode`: `Math.random` is replaced by the indices it selects.
- The Firestore listeners, listener subscriptions and the deletion of stale mirror documents are not
  modelled. The same goes for the writes in `createCommunity` and `joinCommunity`, and for routing.
  The model states which memberships are scheduled for deletion, not the deletion itself.
- `UserProfiles.RefreshProfiles`: covers one run of the effect, with reads that complete in order.
  Not modelled: React state, the hook's re-run condition (`uids.join(',')`), and effect runs that
  overlap and write stale copies of the cache.
- Sign-in and sign-up pages, the UI components, `lib/format.ts` and the Firebase initialisation files
  are UI glue or SDK configuration. `lib/types.ts` only supplies the shapes of `Bill`, `Item` and
  `UserProfile`.
