# Storefront transactions, modelled in Dafny

This project models the transactional core of a small Swift storefront (`store.swift`).
A store holds a catalog of items: games, movies, or plain items, each with an id, a title and a price.
A customer holds a balance and an ordered list of owned copies, and each copy counts the minutes it has been used.
The store sells an item to a customer, refunds it while it has been used for fewer than 30 minutes, and searches the catalog by title.
The customer reloads their balance and uses owned items.

Money is an `int` number of cents. The source uses `Double` but only adds, subtracts and compares money.
Case folding is ASCII only.

## Layout

- `items.dfy`, module `Items`: the data model.
  - `Kind` is a `Game`, a `Movie` or a `Plain` item.
  - `Item` is a catalog entry.
  - `OwnedItem` is a purchased copy: a snapshot of the entry's id, title and price, plus `minutesUsed`.
  - `Receipt` is what `printReceipt` reports.
  - `Listing` is one labelled search line.
  - `Copy` builds the copy a purchase appends, with `minutesUsed` 0.
  - `Label` gives the lines one search result prints.
- `lookup.dfy`, module `Lookup`: the lookups by id.
  - `CatalogIndex` models `first(where:)`.
  - `OwnedIndex` models `firstIndex(where:)` and the `for` loop's first match.
  - `Owns` models `contains(where:)`.
  - `UniqueIds` states that owned ids are pairwise distinct.
  - `RemoveAt` models `remove(at:)`.
- `search.dfy`, module `Search`: title search.
  - `Lower` models `lowercased()`.
  - `Contains` is the substring test.
  - `Matching` is the `filter` of `findByTitle`.
  - `Labelled` is the sequence of lines its loop prints.
- `ledger.dfy`, module `Ledger`: the transactions as functions of the customer's state (`Account`).
  - `Buy`, `Refund` and `Used` are the transactions.
  - The lemmas state what the source promises about them.
  - `Outcome` replaces the printed messages: `Ok`, `ItemNotFound`, `AlreadyOwned`, `InsufficientFunds`, `NotOwned` and `UsageLimitExceeded`.
- `store.dfy`, module `Storefront`: the classes `Customer` and `Store`, whose methods change the customer's fields in place.
  - `BuyItem` and `IssueRefund` are proved to leave exactly the outcome, receipt and state of `Buy` and `Refund`.
  - `UseItem`'s new list is `Used` of the old list; its outcome says whether the id is owned, and it issues no receipt.
  - `ReloadAccount`'s contract gives the new balance directly.
  - `BuyItem`, `IssueRefund` and `UseItem` are also proved to keep owned ids distinct.
  - `OpeningStore` builds the catalog the program starts with.
  - `PurchaseSession` and `UsageSession` walk through purchases, use and refunds and assert the balances.

## Model

| member | source | states |
|---|---|---|
| Lookup.CatalogIndex | store.swift:119 | The found position holds an entry with the id and no earlier entry has it; none is found only when no entry has the id. |
| Lookup.OwnedIndex | store.swift:150 | The found position holds a copy with the id and no earlier copy has it; none is found only when no copy has the id. |
| Lookup.OwnsIffIndexed | store.swift:125 | `contains(where:)` holds exactly when `firstIndex(where:)` finds a position. |
| Lookup.OwnedIndexOnlyReadsIds | store.swift:98-99 | Two lists with the same ids at every position have the same first match, so changing minutes never moves it. |
| Items.Copy | store.swift:140 | No contract; the copy a purchase appends is described by `Ledger.BuySuccess`. |
| Items.Label | store.swift:177-181 | No contract; the lines a single result prints are described by `Search.LabelledLines`. |
| Lookup.Owns | store.swift:125 | No contract; `contains(where:)` as "some position holds the id", related to the index lookup by `Lookup.OwnsIffIndexed`. |
| Lookup.RemoveAt | store.swift:162 | No contract; `remove(at:)`, whose effect on the owned list is described by `Ledger.RefundSuccess`. |
| Ledger.Buy | store.swift:117-146 | No contract; the purchase transition, described by `Ledger.BuyGuards`, `Ledger.BuySuccess`, `Ledger.BuyFailureChangesNothing`, `Ledger.BuyKeepsIdsUnique` and `Ledger.BuyThenRefund`. |
| Ledger.Refund | store.swift:149-165 | No contract; the refund transition, described by `Ledger.RefundGuards`, `Ledger.RefundWindowBoundary`, `Ledger.RefundSuccess` and `Ledger.RefundKeepsIdsUnique`. |
| Ledger.Used | store.swift:97-105 | No contract; the list after a use, described by `Ledger.UsedShape`, `Ledger.UseAccumulates` and `Ledger.UseKeepsIdsUnique`. |
| Search.LowerChar | store.swift:169 | No contract; ASCII lower-casing of one character. |
| Search.Lower | store.swift:169 | No contract; `lowercased()`, character by character; see `Search.LowerIdempotent`. |
| Search.Contains | store.swift:169 | No contract; the substring test. |
| Search.TitleMatches | store.swift:169 | No contract; the filter's condition, described by `Search.MatchingMembers` and `Search.AwesomeGameMatches`. |
| Search.Matching | store.swift:169 | Never more results than catalog entries; membership and order are stated by `Search.MatchingMembers` and `Search.MatchingAppend`. |
| Search.Labelled | store.swift:176-182 | Never more lines than results; which lines are printed is stated by `Search.LabelledLines`. |
| Ledger.BuyGuards | store.swift:117-134 | A purchase reports ItemNotFound exactly when no entry has the id. It reports AlreadyOwned exactly when the entry exists and is owned. It reports InsufficientFunds exactly when the entry exists, is not owned and costs more than the balance. It succeeds exactly when all three guards pass. |
| Ledger.BuyFailureChangesNothing | store.swift:119-134 | A failed purchase leaves balance and owned list unchanged and issues no receipt. |
| Ledger.BuySuccess | store.swift:131-145 | A successful purchase had balance at least the price and leaves balance minus the price, which is non-negative. It appends exactly one copy with the entry's id, title and price and zero minutes, and keeps the earlier copies. It issues a purchase receipt for the price. |
| Ledger.BuyKeepsIdsUnique | store.swift:125-141 | If owned ids are pairwise distinct before a purchase, they are afterwards. |
| Ledger.RebuyRejected | store.swift:125-128 | After a successful purchase, buying the same id again reports AlreadyOwned and changes nothing, whatever the balance. |
| Ledger.RefundGuards | store.swift:149-159 | A refund reports NotOwned exactly when no copy has the id. It reports UsageLimitExceeded exactly when the first such copy has 30 or more minutes. It succeeds exactly when that copy has fewer than 30. Failures change nothing and issue no receipt. |
| Ledger.RefundWindowBoundary | store.swift:156 | A first copy with exactly 30 minutes is refused; one with 29 is refunded. |
| Ledger.RefundSuccess | store.swift:155-164 | A successful refund credits the first matching copy's recorded price. It removes exactly that copy, keeping the others in order, so the list shrinks by one and loses that one element. It issues a refund receipt for the price. |
| Ledger.RefundKeepsIdsUnique | store.swift:150-162 | If owned ids are pairwise distinct before a refund, they are afterwards, and a refunded id is then no longer owned. |
| Ledger.BuyThenRefund | store.swift:137-162 | A purchase followed at once by a refund of the same id restores the original balance and owned list, with a refund receipt for the price. |
| Ledger.UsedShape | store.swift:97-105 | Using an id keeps length, order, ids, titles and prices. It adds the minutes to the first copy with the id only, and changes nothing when no copy has the id. |
| Ledger.UseAccumulates | store.swift:100 | Using an id for m1 and then m2 minutes equals using it once for m1 + m2. |
| Ledger.UseNeverLowersMinutes | store.swift:100 | With a non-negative amount, no copy's minutes decrease. |
| Ledger.UseKeepsIdsUnique | store.swift:98-104 | Using keeps owned ids pairwise distinct. |
| Search.LowerIdempotent | store.swift:169 | Lower-casing a lower-cased string changes nothing. |
| Search.MatchingMembers | store.swift:169 | An entry is a search result exactly when it is in the catalog and its lower-cased title contains the lower-cased keyword. |
| Search.MatchingAppend | store.swift:169 | Searching a concatenated catalog yields the results of each part in order, so results keep catalog order. |
| Search.MatchingIgnoresKeywordCase | store.swift:169 | Keywords that agree once lower-cased find the same entries in the same order. |
| Search.MatchingLowerKeyword | store.swift:169 | Searching with the lower-cased keyword finds the same entries. |
| Search.AwesomeGameMatches | store.swift:169 | The keyword "game" matches the title "Awesome Game". |
| Search.LabelledSnoc | store.swift:176-182 | Printing one more result appends exactly that result's lines. |
| Search.LabelledLines | store.swift:176-182 | A line is printed exactly when its item is among the results and is labelled GAME for a Game or MOVIE for a Movie; plain items are never printed. |
| Storefront.Customer.constructor | store.swift:85-88 | A new customer owns nothing and has the given balance, 10.00 by default. |
| Storefront.Customer.ReloadAccount | store.swift:91-94 | The balance grows by the amount, of either sign, and the owned list is unchanged. |
| Storefront.Customer.UseItem | store.swift:97-106 | The loop stops at the first copy with the id, and the new list is the `Used` transition of the old one. The report is Ok exactly when the id is owned, the balance is unchanged, and distinct ids stay distinct. |
| Storefront.Store.constructor | store.swift:112-114 | The store holds the given catalog. |
| Storefront.Store.BuyItem | store.swift:117-146 | Outcome, receipt, balance and owned list equal the `Buy` transition of the customer's old state; distinct ids stay distinct. |
| Storefront.Store.IssueRefund | store.swift:149-165 | Outcome, receipt, balance and owned list equal the `Refund` transition of the customer's old state; distinct ids stay distinct. |
| Storefront.Store.FindByTitle | store.swift:168-183 | The results are the `Matching` entries of the catalog. The loop's lines are the `Labelled` lines of those results, in order. An empty result is the "no matches" case. |
| Storefront.OpeningStore | store.swift:187-190 | The opening catalog is the 50.00 game "GTA SA" and the 15.00 movie "8 Mile". |

## Left out

- The menu loop, `readLine`, `exit` and the global customer (store.swift:193-245) are console input and output. The two session methods stand in for a caller.
- Every `print` and the text of `info` and of receipts are formatting. An operation returns an `Outcome`, and a receipt is a `Receipt` value: refund or purchase, title and amount.
- Money is whole cents, so `Double` rounding and non-finite values are not modelled.
- Minutes are unbounded integers. Swift's `Int` would trap on overflow at `minutesUsed +=`.
- Ids are compared as exact character sequences. Swift's `String ==` treats canonically equivalent strings as equal (a precomposed "é" equals "e" followed by a combining accent), so the model does not capture that equivalence in the lookups of `useItem`, `buyItem` and `issueRefund`.
- `lowercased()` is modelled for ASCII letters only. Unicode case mapping and Foundation's substring search are not modelled.
- An empty keyword counts as contained in every title, as the Swift standard library does. Foundation's `NSString` search says the opposite, so the empty-keyword case is not a claim of this model.
- Owned copies are values. The source mutates a shared `OwnedItem` object found by the loop; the model updates that position of the list.
- `Store.items` is a mutable array in the source, but no operation changes it, and the model never assigns it after construction.
- A "not found" from `useItem` is reported as `NotOwned`.
- Ledger.UseNeverLowersMinutes: assumes a non-negative amount. The code accepts negative minutes, which lower the count, so "minutes never decrease" holds only for non-negative uses.
- Prices are never checked to be non-negative in the code. Prices are any integer here, so a refund increases the balance only when the price is positive.
