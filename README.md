# Rifas — a verified model of the raffle book

Rifas is an Android app for running raffles. A raffle has a name, a
range of ticket numbers, a digit count for padding the labels, a draw date,
a lottery, a prize, a price per ticket and an active flag. Tickets are sold
to buyers (name and phone), singly or in batches, and marked paid later.
Screens group the tickets by buyer, filter the buyers by name, number and
payment state, total the revenue of the active raffles, and rank the ten
most loyal clients. The data lives in two Room tables, `raffles` and
`sold_numbers`, behind a DAO, a repository and a view model. The view model
also checks a remote file for a newer version and runs one download at a
time.

This project models that core in Dafny and proves what it promises.

- `entities.dfy`: the two entities, `Raffle` and `SoldNumber`, and their
  constructors with Kotlin's default arguments.
- `tables.dfy` and `dao.dfy`: the two tables as sequences, kept strictly
  ascending by primary key. The table operations are SQLite's:
  - REPLACE inserts that assign AUTOINCREMENT ids;
  - `@Update`, which touches only the row with the same key;
  - `@Delete`, which removes that key;
  - the raffle-id filter and delete.

  `class RaffleDao` holds the tables and the two id counters. Its invariant
  `Valid()` says the ids are unique and the counters bound them. It also
  says every sold number references an existing raffle: Room turns foreign
  keys on, so an insert or update that would break that fails and changes
  nothing. Deleting a raffle cascades to its sold numbers. A REPLACE that
  overwrites a raffle first deletes the old row, which cascades too.
- `repository.dfy` (`class RaffleRepository`): one DAO call per operation,
  except `deleteRaffle`. That one deletes the raffle's sold numbers and then
  the raffle, and is proved to reach the state the cascade alone reaches.
- `view_model.dfy` (`class RaffleViewModel`):
  - the records `sellNumbers` and `addRaffle` build;
  - pass-through mutations;
  - the version comparison of `checkForUpdates`;
  - the `isDownloading` single-flight flag, with the id of the pending
    download.
- `tickets.dfy`:
  - the ticket labels (`padStart(digits, '0')` when `digits > 0`);
  - the grid: 4, 6 or 8 columns, in pages of 100;
  - the "create raffle" form: `parsedDigits`, `canSave`, the preview and its
    rows.
- `buyers.dfy`:
  - `BuyerSummary`, `isFullyPaid` and `numbersListText`;
  - the two buyer groupings;
  - the search and payment filter;
  - the top-10 client list.
- `revenue.dfy`: the gross, net and potential revenue over active raffles,
  and the progress bar.
- `detail_screen.dfy` (`class Screen`): the detail screen's selection state
  and its transitions — tap, long press, the sell button, confirm, dismiss,
  and the buyer-info dialog.
- `actions.dfy`: the click handlers that call the view model:
  - the payment-confirm loop and the delete-buyer loop, each proved against
    a function of the starting table;
  - the status toggle;
  - "Guardar Rifa";
  - selling the selection;
  - the update dialog.
- `kotlin_text.dfy`, `lists.dfy` and `wrappers.dfy`: the Kotlin standard
  library functions the code relies on. This covers:
  - `toString`, `toIntOrNull`, `padStart`, `trim`, `isBlank`, `lowercase`,
    `contains`, `compareTo` and `joinToString`;
  - `filter`, `count`, `all`, `any`, `map` and `take`;
  - `chunked`, `groupBy` (key order of first occurrence, input order inside
    a group), and the stable `sortedBy` / `sortedByDescending`;
  - nullable values.

The model is faithful to two behaviours of the code that are probably not
what the authors meant.

- **The per-raffle buyer key is plain concatenation.** It is
  `buyerName + buyerPhone`, so ("Ana", "5551") and ("Ana5", "551") are one
  buyer (`Buyers.RaffleKeysCollide`).
- **A negative label keeps its sign after the padding.** `(-5).toString()`
  padded to 3 digits is `"0-5"`, which `toIntOrNull` does not read back
  (`Tickets.PaddedNegativeLabelDoesNotParse`). The model still proves that
  every label, negative ones included, names exactly one ticket
  (`Tickets.LabelRoundTrip`).

The potential ticket count `rangeEnd - rangeStart + 1` is Kotlin `Int`
arithmetic. It wraps to 0 for the full `Int` range
(`Revenue.FullRangeWrapsToZero`).

The global buyer key is the name lower-cased and trimmed, then the trimmed
phone. No character lower-cases to whitespace, so the order of the two
steps does not matter (`Buyers.GlobalKeyOrderFree`).

## Model

| member | source | states |
|---|---|---|
| Entities.NewRaffle | app/src/main/java/com/example/rifas/data/Raffle.kt:7-17 | The constructor keeps every given field. By default `id` is 0, `drawDate`, `lotteryName`, `prize` and `price` are empty, and `isActive` is true. |
| Entities.NewSoldNumber | app/src/main/java/com/example/rifas/data/SoldNumber.kt:20-26 | The constructor keeps the raffle id, number, buyer name and phone. By default `id` is 0 and `isPaid` is false. |
| Tables.AssignedKey | app/src/main/java/com/example/rifas/data/SoldNumber.kt:21 | AUTOINCREMENT: id 0 gets one more than the largest id ever used; any other id is kept. |
| Tables.Find | app/src/main/java/com/example/rifas/data/RaffleDao.kt:16-17 | Lookup by key: some row exactly when a row has that key, and then it is such a row. |
| Tables.FindUnique | app/src/main/java/com/example/rifas/data/RaffleDao.kt:16-17 | In a table with unique keys, looking up a row's key gives back that very row. |
| Tables.Reversed | app/src/main/java/com/example/rifas/data/RaffleDao.kt:13-14 | The reverse order: same length, element `i` is element `n-1-i`. |
| Tables.ReversedDescending | app/src/main/java/com/example/rifas/data/RaffleDao.kt:13-14 | `ORDER BY id DESC` of an ascending table holds the same rows with ids strictly descending. |
| Tables.Upsert | app/src/main/java/com/example/rifas/data/RaffleDao.kt:19-20 | A REPLACE insert keeps the keys unique and ascending. |
| Tables.UpsertMembers | app/src/main/java/com/example/rifas/data/RaffleDao.kt:19-20 | After a REPLACE insert the table holds the new row plus every old row with another key, and nothing else. |
| Tables.UpsertAbove | app/src/main/java/com/example/rifas/data/RaffleDao.kt:28-29 | A row whose key is above every key in use is appended at the end. |
| Tables.Replace | app/src/main/java/com/example/rifas/data/RaffleDao.kt:22-23 | `@Update`: same length and keys. The row with the given key becomes the given row, every other row is unchanged, and nothing happens when no row has the key. |
| Tables.ReplaceKeepsTable | app/src/main/java/com/example/rifas/data/RaffleDao.kt:31-32 | An update keeps the keys unique and bounded. It brings in no row except the given one, and that one only when its key was present. |
| Tables.DeleteKey | app/src/main/java/com/example/rifas/data/RaffleDao.kt:34-35 | `@Delete`: exactly the rows with another key remain, still ascending. |
| Dao.OfRaffle | app/src/main/java/com/example/rifas/data/RaffleDao.kt:37-38 | Exactly the sold numbers of that raffle, in table order. |
| Dao.WithoutRaffle | app/src/main/java/com/example/rifas/data/RaffleDao.kt:40-41 | Exactly the sold numbers of other raffles remain, in order, keys still ascending. |
| Dao.InsertOne | app/src/main/java/com/example/rifas/data/RaffleDao.kt:28-29 | Inserting one sold number keeps the keys unique and ascending. |
| Dao.InsertOneMembers | app/src/main/java/com/example/rifas/data/RaffleDao.kt:28-29 | After one insert the table holds the row with its assigned id plus every old row with another id. |
| Dao.InsertAll | app/src/main/java/com/example/rifas/data/RaffleDao.kt:28-29 | Inserting a batch row by row keeps the keys unique and ascending. |
| Dao.InsertAllKeysAtMost | app/src/main/java/com/example/rifas/data/RaffleDao.kt:28-29 | The id counter never decreases and stays an upper bound of every id. |
| Dao.InsertAllOrigin | app/src/main/java/com/example/rifas/data/RaffleDao.kt:28-29 | After a batch insert, every row was there before or carries the raffle id of some row of the batch. |
| Dao.Numbered | app/src/main/java/com/example/rifas/data/RaffleDao.kt:28-29 | The fresh ids of a batch: row `i` gets id `last + 1 + i`, and nothing else changes. |
| Dao.InsertAllFresh | app/src/main/java/com/example/rifas/data/RaffleDao.kt:28-29 | A batch of id-0 rows is appended in order with consecutive fresh ids, and the counter advances by the batch size. |
| Dao.InsertAllReferences | app/src/main/java/com/example/rifas/data/SoldNumber.kt:10-16 | A batch whose raffles all exist leaves every sold number referencing an existing raffle. |
| Dao.InsertAllConsistent | app/src/main/java/com/example/rifas/data/SoldNumber.kt:10-18 | Such a batch keeps the whole database consistent: unique ids, bounded counters, references intact. |
| Dao.InsertRaffleConsistent | app/src/main/java/com/example/rifas/data/SoldNumber.kt:10-16 | A REPLACE of an existing raffle cascades to its sold numbers, which keeps the database consistent. |
| Dao.InsertBatch | app/src/main/java/com/example/rifas/data/RaffleDao.kt:28-29 | The batch insert's loop. It succeeds exactly when every row's raffle exists, and then the result is the row-by-row insert; otherwise nothing changes. |
| Dao.RaffleDao.constructor | app/src/main/java/com/example/rifas/data/RaffleDao.kt:11-12 | An empty database with both counters at 0. |
| Dao.RaffleDao.GetAllRaffles | app/src/main/java/com/example/rifas/data/RaffleDao.kt:13-14 | Every raffle row and only those, ids strictly descending. |
| Dao.RaffleDao.GetRaffleById | app/src/main/java/com/example/rifas/data/RaffleDao.kt:16-17 | The row with that id when there is one; absent, not a failure, when there is none. |
| Dao.RaffleDao.InsertRaffle | app/src/main/java/com/example/rifas/data/RaffleDao.kt:19-20 | Returns the id the row was stored under, after a REPLACE insert. A replaced raffle loses its sold numbers (the cascade). The counter is updated. |
| Dao.RaffleDao.UpdateRaffle | app/src/main/java/com/example/rifas/data/RaffleDao.kt:22-23 | Only the raffle with the same id is replaced; the sold numbers and counters stay. |
| Dao.RaffleDao.DeleteRaffle | app/src/main/java/com/example/rifas/data/RaffleDao.kt:25-26 | The raffle is removed, and with it, by ON DELETE CASCADE, exactly its sold numbers. |
| Dao.RaffleDao.InsertSoldNumbers | app/src/main/java/com/example/rifas/data/RaffleDao.kt:28-29 | All or nothing. The batch is inserted, REPLACE by REPLACE with fresh ids for id 0, exactly when every row's raffle exists; otherwise nothing changes. Raffles are untouched. |
| Dao.RaffleDao.UpdateSoldNumber | app/src/main/java/com/example/rifas/data/RaffleDao.kt:31-32 | Only the row with the same id is replaced. Nothing happens if there is none. The update fails, changing nothing, when it would point an existing row at a missing raffle. |
| Dao.RaffleDao.DeleteSoldNumber | app/src/main/java/com/example/rifas/data/RaffleDao.kt:34-35 | Only the row with that id goes. |
| Dao.RaffleDao.GetSoldNumbersByRaffleId | app/src/main/java/com/example/rifas/data/RaffleDao.kt:37-38 | Exactly the rows with that raffle id, in table order. |
| Dao.RaffleDao.DeleteSoldNumbersByRaffleId | app/src/main/java/com/example/rifas/data/RaffleDao.kt:40-41 | Exactly the rows with that raffle id go; all others stay, in order. |
| Dao.RaffleDao.AllSoldNumbers | app/src/main/java/com/example/rifas/data/RaffleRepository.kt:16 | Every sold-number row and only those, each exactly as often as in the table (the same multiset); no order is promised. |
| Repository.WithoutRaffleTwice | app/src/main/java/com/example/rifas/data/RaffleRepository.kt:24-27 | Deleting a raffle's sold numbers a second time changes nothing. |
| Repository.WithoutRaffleKeepsOthers | app/src/main/java/com/example/rifas/data/RaffleRepository.kt:24-27 | Deleting one raffle's sold numbers leaves every other raffle's sold numbers exactly as they were. |
| Repository.RaffleRepository.constructor | app/src/main/java/com/example/rifas/data/RaffleRepository.kt:5 | The repository wraps the given DAO. |
| Repository.RaffleRepository.AllRaffles | app/src/main/java/com/example/rifas/data/RaffleRepository.kt:6 | The DAO's listing: every raffle, newest id first. |
| Repository.RaffleRepository.GetRaffleById | app/src/main/java/com/example/rifas/data/RaffleRepository.kt:8 | The DAO's lookup; absent for an id with no row. |
| Repository.RaffleRepository.AddRaffle | app/src/main/java/com/example/rifas/data/RaffleRepository.kt:10 | The DAO's REPLACE insert, with its assigned id. |
| Repository.RaffleRepository.SellNumbers | app/src/main/java/com/example/rifas/data/RaffleRepository.kt:12 | The whole batch goes to one DAO insert, all or nothing. |
| Repository.RaffleRepository.GetSoldNumbers | app/src/main/java/com/example/rifas/data/RaffleRepository.kt:14 | Exactly the sold numbers of that raffle, in table order (a subsequence of the table). |
| Repository.RaffleRepository.AllSoldNumbers | app/src/main/java/com/example/rifas/data/RaffleRepository.kt:16 | Every sold-number row, each as often as in the table (the same multiset); no order promised. |
| Repository.RaffleRepository.UpdateSoldNumber | app/src/main/java/com/example/rifas/data/RaffleRepository.kt:18 | The DAO's update of the row with that id. |
| Repository.RaffleRepository.UpdateRaffle | app/src/main/java/com/example/rifas/data/RaffleRepository.kt:20 | The DAO's update of the raffle with that id. |
| Repository.RaffleRepository.DeleteSoldNumber | app/src/main/java/com/example/rifas/data/RaffleRepository.kt:22 | The DAO's delete of that id. |
| Repository.RaffleRepository.DeleteRaffle | app/src/main/java/com/example/rifas/data/RaffleRepository.kt:24-27 | First the raffle's sold numbers, then the raffle. Afterwards the raffle row and exactly its sold numbers are gone, and everything else is as before. |
| ViewModel.CurrentVersionCode | app/src/main/java/com/example/rifas/ui/RaffleViewModel.kt:62-67 | Before Android P it is `versionCode`. From P on it is `longVersionCode.toInt()`: the same value when it fits an `Int`, and congruent modulo 2^32 always. |
| ViewModel.Offer | app/src/main/java/com/example/rifas/ui/RaffleViewModel.kt:54-73 | An update is offered exactly when a body was received and its `versionCode` is strictly greater than the installed one. What is offered is the received record. |
| ViewModel.SoldBatch | app/src/main/java/com/example/rifas/ui/RaffleViewModel.kt:157-164 | One `SoldNumber` per requested number, in order. Each has the given raffle, number, buyer name and phone, with `id` 0 and not paid. |
| ViewModel.RaffleOf | app/src/main/java/com/example/rifas/ui/RaffleViewModel.kt:133-142 | A `Raffle` with exactly the given fields, `id` 0 and active. |
| ViewModel.RaffleViewModel.constructor | app/src/main/java/com/example/rifas/ui/RaffleViewModel.kt:37-43 | No update offered, no download running. |
| ViewModel.RaffleViewModel.CheckForUpdates | app/src/main/java/com/example/rifas/ui/RaffleViewModel.kt:45-79 | `updateAvailable` becomes the offer when there is one. A failure, an unsuccessful response, a missing body or a version not above the current one leaves it unchanged. The download flag is untouched. |
| ViewModel.RaffleViewModel.DownloadUpdate | app/src/main/java/com/example/rifas/ui/RaffleViewModel.kt:81-114 | A no-op while a download runs. Otherwise `isDownloading` ends true exactly when the enqueue succeeded, and its id is the pending one. The offer is untouched. |
| ViewModel.RaffleViewModel.OnDownloadComplete | app/src/main/java/com/example/rifas/ui/RaffleViewModel.kt:99-105 | Only the completion of the pending download id clears `isDownloading` and installs. Any other id changes nothing. |
| ViewModel.RaffleViewModel.Raffles | app/src/main/java/com/example/rifas/ui/RaffleViewModel.kt:128 | The repository's listing, newest id first. |
| ViewModel.RaffleViewModel.GetRaffleById | app/src/main/java/com/example/rifas/ui/RaffleViewModel.kt:147-149 | The repository's lookup. |
| ViewModel.RaffleViewModel.GetSoldNumbers | app/src/main/java/com/example/rifas/ui/RaffleViewModel.kt:151-153 | Exactly the sold numbers of that raffle, in table order (a subsequence of the table). |
| ViewModel.RaffleViewModel.AddRaffle | app/src/main/java/com/example/rifas/ui/RaffleViewModel.kt:130-145 | The new raffle, with exactly the given fields and active, is appended under the next id. No other raffle and no sold number changes. |
| ViewModel.RaffleViewModel.SellNumbers | app/src/main/java/com/example/rifas/ui/RaffleViewModel.kt:155-167 | One repository call. When the raffle exists (or the list is empty), the built rows are appended in order with consecutive fresh ids; otherwise nothing changes. |
| ViewModel.RaffleViewModel.DeleteRaffle | app/src/main/java/com/example/rifas/ui/RaffleViewModel.kt:169-173 | The repository's cascade delete. |
| ViewModel.RaffleViewModel.UpdateRaffle | app/src/main/java/com/example/rifas/ui/RaffleViewModel.kt:175-179 | The argument goes unchanged to the repository update. |
| ViewModel.RaffleViewModel.UpdateSoldNumber | app/src/main/java/com/example/rifas/ui/RaffleViewModel.kt:181-185 | The argument goes unchanged to the repository update. |
| ViewModel.RaffleViewModel.DeleteSoldNumber | app/src/main/java/com/example/rifas/ui/RaffleViewModel.kt:187-191 | The argument goes unchanged to the repository delete. |
| KotlinText.ToIntOrNull | app/src/main/java/com/example/rifas/ui/AppContent.kt:1875-1876 | A value exactly when the text is an optionally signed decimal that fits an `Int`, and then that value. |
| KotlinText.IntToStringRoundTrip | app/src/main/java/com/example/rifas/ui/AppContent.kt:931 | `toIntOrNull` reads back every `Int`'s `toString`. |
| KotlinText.PadStart | app/src/main/java/com/example/rifas/ui/AppContent.kt:931 | The length is the larger of the target and the text's length, the text is the suffix, and the pad characters come before it. |
| KotlinText.Wrap32 | app/src/main/java/com/example/rifas/ui/AppContent.kt:1314 | `Int` arithmetic: the exact value when it fits, congruent modulo 2^32 always. |
| KotlinText.TrimRemovesWhitespace | app/src/main/java/com/example/rifas/ui/AppContent.kt:146 | `trim` removes only whitespace, from both ends. |
| KotlinText.BlankIffTrimmedEmpty | app/src/main/java/com/example/rifas/ui/AppContent.kt:1193 | A text is blank exactly when trimming it leaves nothing. |
| KotlinText.TrimLowercaseCommute | app/src/main/java/com/example/rifas/ui/AppContent.kt:146 | `lowercase().trim()` equals `trim().lowercase()` on every text. |
| KotlinText.JoinToStringSnoc | app/src/main/java/com/example/rifas/ui/AppContent.kt:572 | `joinToString`: joining one more part adds the separator and that part at the end. |
| Lists.GroupByIsGrouping | app/src/main/java/com/example/rifas/ui/AppContent.kt:146 | `groupBy`: one non-empty group per distinct key, holding that key's elements in input order, with keys in order of first occurrence and covering every element. |
| Lists.SortWithSpec | app/src/main/java/com/example/rifas/ui/AppContent.kt:154 | The stable sort is sorted, a permutation, and keeps the input order among equal elements. |
| Lists.SortedPrefix | app/src/main/java/com/example/rifas/ui/AppContent.kt:1324-1325 | `take(n)` of the sorted list is sorted, has min(size, n) elements taken from the input with no element used more often than it occurs there (a sub-multiset), and every element left out ranks no higher than the last kept. |
| Tickets.Label | app/src/main/java/com/example/rifas/ui/AppContent.kt:931 | The label is max(digits, decimal length) long: the decimal form at the end, zeros before it. |
| Tickets.LabelRoundTrip | app/src/main/java/com/example/rifas/ui/AppContent.kt:931 | Every label, for every value and digit count, reads back as its ticket once leading zeros are dropped. |
| Tickets.LabelInjective | app/src/main/java/com/example/rifas/ui/AppContent.kt:930-932 | Two tickets never share a label. |
| Tickets.NonNegativeLabelParses | app/src/main/java/com/example/rifas/ui/AppContent.kt:931 | A non-negative label is itself a number `toIntOrNull` reads as the ticket. |
| Tickets.PaddedNegativeLabelDoesNotParse | app/src/main/java/com/example/rifas/ui/AppContent.kt:931 | A padded negative label has its zeros before the minus sign and is not a number. |
| Tickets.TicketLabels | app/src/main/java/com/example/rifas/ui/AppContent.kt:930-932 | `rangeEnd - rangeStart + 1` labels, none for an empty range. Label `i` is that of ticket `rangeStart + i`. |
| Tickets.TicketLabelsAreTheRange | app/src/main/java/com/example/rifas/ui/AppContent.kt:927-936 | The grid names each ticket of the range once, ascending, and no two labels are equal. |
| Tickets.NumberItems | app/src/main/java/com/example/rifas/ui/AppContent.kt:927-936 | No labels while the raffle is not loaded; otherwise its grid. |
| Tickets.ColumnsCount | app/src/main/java/com/example/rifas/ui/AppContent.kt:938-942 | 4 columns exactly up to 20 labels, 6 exactly from 21 to 50, and 8 exactly above 50. |
| Tickets.NumberPagesSpec | app/src/main/java/com/example/rifas/ui/AppContent.kt:944-945 | Put back together, the pages are the grid. Each page has 1 to 100 labels, all but the last exactly 100, with just enough pages. |
| Tickets.PageInfo | app/src/main/java/com/example/rifas/ui/AppContent.kt:963 | "Página i/n" shown exactly when there are two pages or more. |
| Tickets.PageInfoShownIffOverflow | app/src/main/java/com/example/rifas/ui/AppContent.kt:944-963 | The page caption appears exactly when the grid has more than 100 labels. |
| Tickets.ParsedDigits | app/src/main/java/com/example/rifas/ui/AppContent.kt:1879-1881 | The longer of the two range texts' lengths. |
| Tickets.SavableDigits | app/src/main/java/com/example/rifas/ui/AppContent.kt:1875-1893 | A savable form has at least one digit, and at least as many as each end of its range has. |
| Tickets.PreviewItems | app/src/main/java/com/example/rifas/ui/AppContent.kt:1883-1891 | Every ticket of a well-formed range, padded to `parsedDigits`; nothing for a malformed or empty range. |
| Tickets.PreviewMatchesGrid | app/src/main/java/com/example/rifas/ui/AppContent.kt:1883-1891 | The preview of a savable form is the grid the saved raffle will show. |
| Tickets.PreviewRowsFill | app/src/main/java/com/example/rifas/ui/AppContent.kt:1994-2023 | Put back together, the preview rows are the labels. Every row but the last is full, and the empty boxes complete each row to the column count. |
| Buyers.IsFullyPaid | app/src/main/java/com/example/rifas/ui/AppContent.kt:571 | True exactly when every ticket of the buyer is paid. |
| Buyers.Numbers | app/src/main/java/com/example/rifas/ui/AppContent.kt:572 | The ticket numbers, in list order. |
| Buyers.NumbersListTextSpec | app/src/main/java/com/example/rifas/ui/AppContent.kt:572 | Empty for no tickets, the number itself for one. Otherwise it starts with the first number, contains every number, and its length is the numbers' plus two per ", ". |
| Buyers.NumbersListTextSnoc | app/src/main/java/com/example/rifas/ui/AppContent.kt:572 | One more ticket appends ", " and its number to the end of the text, so the numbers appear in list order. |
| Buyers.Summaries | app/src/main/java/com/example/rifas/ui/AppContent.kt:147-153 | One summary per group, in group order, each from its group. |
| Buyers.SummariesPartition | app/src/main/java/com/example/rifas/ui/AppContent.kt:147-153 | The summaries of a grouping partition the tickets and keep the groups' first-occurrence order. |
| Buyers.RaffleBuyers | app/src/main/java/com/example/rifas/ui/AppContent.kt:365-374 | The per-raffle buyers partition the tickets by `name + phone`: each ticket lands in exactly one non-empty buyer, in input order. A buyer's name and phone are those of its first ticket, and buyers appear in order of first ticket. |
| Buyers.GlobalKeyOrderFree | app/src/main/java/com/example/rifas/ui/AppContent.kt:146 | Lower-casing then trimming the name gives the same key as trimming then lower-casing. |
| Buyers.GlobalGroups | app/src/main/java/com/example/rifas/ui/AppContent.kt:145-153 | The same partition under the key `trim(lowercase(name)) + trim(phone)`. |
| Buyers.ByNameTotalPreorder | app/src/main/java/com/example/rifas/ui/AppContent.kt:154 | Comparing buyers by name is a total preorder. |
| Buyers.GlobalBuyersSpec | app/src/main/java/com/example/rifas/ui/AppContent.kt:145-155 | The global buyer list partitions all tickets. It is a permutation of the groups, sorted by name, and buyers with equal names keep their first-occurrence order. |
| Buyers.GlobalBuyersPartition | app/src/main/java/com/example/rifas/ui/AppContent.kt:145-155 | Sorting keeps the partition property. |
| Buyers.RaffleKeysCollide | app/src/main/java/com/example/rifas/ui/AppContent.kt:366 | ("Ana", "5551") and ("Ana5", "551") become one buyer named "Ana" with both tickets. |
| Buyers.FilterBuyers | app/src/main/java/com/example/rifas/ui/AppContent.kt:157-166 | Never more buyers than given. |
| Buyers.FilterBuyersSpec | app/src/main/java/com/example/rifas/ui/AppContent.kt:157-166 | A subsequence of the buyers. A buyer is kept exactly when their name contains the query ignoring case or a ticket number contains it, and they pass the payment filter. |
| Buyers.PaymentFiltersSplit | app/src/main/java/com/example/rifas/ui/AppContent.kt:160-164 | "Todos" keeps exactly the buyers kept by "Pagos" or by "No Pagos", and no buyer is kept by both. |
| Buyers.EmptySearchShowsAll | app/src/main/java/com/example/rifas/ui/AppContent.kt:376-385 | With an empty query and "Todos" every buyer is listed, in order. |
| Buyers.ClientCounts | app/src/main/java/com/example/rifas/ui/AppContent.kt:1320-1324 | One entry per distinct trimmed phone. |
| Buyers.ClientCountsSpec | app/src/main/java/com/example/rifas/ui/AppContent.kt:1319-1325 | Entry `i` is for the `i`-th distinct trimmed phone. Its name is the buyer name of that phone's first ticket, and its count is the number of tickets with that trimmed phone. |
| Buyers.ByPurchasesTotalPreorder | app/src/main/java/com/example/rifas/ui/AppContent.kt:1324 | Comparing by count, descending, is a total preorder. |
| Buyers.LoyalClients | app/src/main/java/com/example/rifas/ui/AppContent.kt:1319-1327 | At most 10 entries. |
| Buyers.LoyalClientsSpec | app/src/main/java/com/example/rifas/ui/AppContent.kt:1319-1327 | min(clients, 10) entries, all of them clients and none listed more often than it is counted (a sub-multiset), with counts non-increasing. A client left out has no more tickets than the tenth. |
| Revenue.PricePerNumber | app/src/main/java/com/example/rifas/ui/AppContent.kt:1299 | The parsed price, or 0 when the price text does not parse. |
| Revenue.PaidAtMostSold | app/src/main/java/com/example/rifas/ui/AppContent.kt:1299-1306 | Per raffle, the paid count never exceeds the sold count. |
| Revenue.GeneratedCountIsGridSize | app/src/main/java/com/example/rifas/ui/AppContent.kt:1314 | For a well-formed range whose size fits an `Int`, the potential count is the grid's size. |
| Revenue.FullRangeWrapsToZero | app/src/main/java/com/example/rifas/ui/AppContent.kt:1314 | For the full `Int` range the count wraps to 0 while the grid has 2^32 tickets. |
| Revenue.ActiveRafflesCons | app/src/main/java/com/example/rifas/ui/AppContent.kt:1295 | The active-raffle filter keeps a raffle exactly when it is active, in order. |
| Revenue.RevenueOfCons | app/src/main/java/com/example/rifas/ui/AppContent.kt:1295-1316 | Each total adds a raffle's sold, paid or generated count times its price when it is active, and nothing when not. |
| Revenue.NetSumWithinGrossSum | app/src/main/java/com/example/rifas/ui/AppContent.kt:1297-1308 | With non-negative prices, summed over any raffles, net is between 0 and gross. |
| Revenue.NetWithinGross | app/src/main/java/com/example/rifas/ui/AppContent.kt:1297-1308 | With non-negative prices, 0 ≤ net revenue ≤ gross revenue. |
| Revenue.SaleCounts | app/src/main/java/com/example/rifas/ui/AppContent.kt:1300-1307 | One more sold ticket adds one to its own raffle's sold count, and to its paid count when paid, and nothing to another raffle's. |
| Revenue.ShareAfterSale | app/src/main/java/com/example/rifas/ui/AppContent.kt:1298-1309 | One more sold ticket adds the raffle's price to that raffle's gross share, and to its net share when paid; another raffle's shares stay. |
| Revenue.SaleElsewhere | app/src/main/java/com/example/rifas/ui/AppContent.kt:1295-1309 | A ticket whose raffle is not on the list changes neither gross nor net revenue. |
| Revenue.SaleRevenue | app/src/main/java/com/example/rifas/ui/AppContent.kt:1295-1309 | With unique raffle ids, one more ticket of a listed raffle adds exactly its price to the gross revenue, and to the net revenue when paid, if the raffle is active; it changes neither total otherwise. |
| Revenue.Progress | app/src/main/java/com/example/rifas/ui/AppContent.kt:1427 | 0 when gross is not positive; otherwise the ratio, `progress × gross = net`. |
| Revenue.ProgressWithinBar | app/src/main/java/com/example/rifas/ui/AppContent.kt:1427 | With non-negative prices the bar is between 0 and 1. |
| Revenue.FullBarForOneRaffle | app/src/main/java/com/example/rifas/ui/AppContent.kt:1427 | For one active, priced raffle with sales, the bar is full exactly when every sold ticket is paid. |
| DetailScreen.With | app/src/main/java/com/example/rifas/ui/AppContent.kt:1106 | `set + number`: appended when absent, unchanged when present, no repeats. |
| DetailScreen.Without | app/src/main/java/com/example/rifas/ui/AppContent.kt:1104 | `set - number`: exactly the other elements, one fewer when present, unchanged when absent. |
| DetailScreen.WithoutUndoesWith | app/src/main/java/com/example/rifas/ui/AppContent.kt:1103-1107 | Adding a number and removing it again restores the selection. |
| DetailScreen.FindByNumber | app/src/main/java/com/example/rifas/ui/AppContent.kt:1091 | `find`: absent exactly when no sold number has that label; otherwise the first one that does. |
| DetailScreen.Screen.constructor | app/src/main/java/com/example/rifas/ui/AppContent.kt:915-921 | Nothing selected, multi-select off, no dialog, empty buyer fields. |
| DetailScreen.Screen.ShowsSellButton | app/src/main/java/com/example/rifas/ui/AppContent.kt:1008 | The sell button shows exactly in multi-select with something selected. |
| DetailScreen.Screen.Tap | app/src/main/java/com/example/rifas/ui/AppContent.kt:1099-1112 | A sold ticket opens its buyer info and is never selected. In multi-select a tap toggles membership. Otherwise the selection becomes that ticket alone and the sell dialog opens. |
| DetailScreen.Screen.LongPress | app/src/main/java/com/example/rifas/ui/AppContent.kt:1113-1118 | On an unsold ticket it turns multi-select on and adds the ticket; a sold one changes nothing. |
| DetailScreen.Screen.PressSellButton | app/src/main/java/com/example/rifas/ui/AppContent.kt:1010 | Opens the sell dialog when the button shows; nothing else changes. |
| DetailScreen.Screen.EditBuyerName | app/src/main/java/com/example/rifas/ui/AppContent.kt:1165 | The name field becomes the text; nothing else changes. |
| DetailScreen.Screen.EditBuyerPhone | app/src/main/java/com/example/rifas/ui/AppContent.kt:1171 | The phone field becomes the text; nothing else changes. |
| DetailScreen.Screen.ConfirmSale | app/src/main/java/com/example/rifas/ui/AppContent.kt:1180-1193 | A sale exactly when the dialog is open and the name is not blank. It carries the selection (no repeats) and the name and phone, and everything is reset: no selection, multi-select off, no dialog, empty fields. Otherwise nothing changes. |
| DetailScreen.Screen.DismissSellDialog | app/src/main/java/com/example/rifas/ui/AppContent.kt:1155-1158 | Closes the dialog. The selection is emptied unless multi-select is on; the buyer fields stay. |
| DetailScreen.Screen.CloseBuyerInfo | app/src/main/java/com/example/rifas/ui/AppContent.kt:1211 | Closes the buyer-info dialog; nothing else changes. |
| DetailScreen.ToggleTwice | app/src/main/java/com/example/rifas/ui/AppContent.kt:1103-1107 | In multi-select, tapping an unsold ticket twice restores the selection. |
| Actions.PayOne | app/src/main/java/com/example/rifas/ui/AppContent.kt:328 | One paid update; the table keeps its size. |
| Actions.MarkPaid | app/src/main/java/com/example/rifas/ui/AppContent.kt:326-330 | The loop's effect on the table: one update per unpaid ticket, in order, the table keeping its size. |
| Actions.MarkPaidSpec | app/src/main/java/com/example/rifas/ui/AppContent.kt:326-330 | When the buyer's tickets are rows of the table, exactly those rows become paid, with no other field changed, and every other row stays in place. |
| Actions.MarkPaidPaysBuyer | app/src/main/java/com/example/rifas/ui/AppContent.kt:326-330 | Afterwards every ticket of the buyer is in the table as paid. |
| Actions.PayTicket | app/src/main/java/com/example/rifas/ui/AppContent.kt:327-329 | An update only for an unpaid ticket: the same record with `isPaid = true`. |
| Actions.ConfirmPayment | app/src/main/java/com/example/rifas/ui/AppContent.kt:545-549 | The loop leaves the table as the payment function of the starting table says, and the raffles and counters unchanged. |
| Actions.DeleteAll | app/src/main/java/com/example/rifas/ui/AppContent.kt:239 | After deleting each ticket, exactly the rows whose id is none of the tickets' remain, and the keys stay ascending. |
| Actions.DeleteAllSpec | app/src/main/java/com/example/rifas/ui/AppContent.kt:239 | When the tickets are rows of the table, exactly those rows are deleted and the rest keep their order. |
| Actions.DeleteBuyer | app/src/main/java/com/example/rifas/ui/AppContent.kt:458 | The loop deletes the buyer's tickets one by one; raffles and counters stay. |
| Actions.Toggled | app/src/main/java/com/example/rifas/ui/AppContent.kt:1745 | `copy(isActive = !isActive)` flips the flag and changes no other field. |
| Actions.ToggleTwiceRestores | app/src/main/java/com/example/rifas/ui/AppContent.kt:1745 | Toggling a raffle twice gives back the table it started from. |
| Actions.ToggleRaffleStatus | app/src/main/java/com/example/rifas/ui/AppContent.kt:1743-1746 | Only that raffle's row is replaced by the toggled copy; the sold numbers and both id counters stay. |
| Actions.SaveRaffle | app/src/main/java/com/example/rifas/ui/AppContent.kt:2030-2044 | Saves exactly when `canSave`, and otherwise changes nothing. Both range texts then parse, and the appended raffle is exactly `addRaffle`'s record: the name, the parsed start and end, `parsedDigits` and the four texts, active, under the next id, which becomes the raffle counter. Its grid is the preview the form showed. The sold numbers and their counter stay. |
| Actions.SellSelection | app/src/main/java/com/example/rifas/ui/AppContent.kt:1180-1193 | Confirmed exactly when the dialog is open and the name is not blank; otherwise the screen and the tables are unchanged. A confirmed sale resets the dialog, selection, multi-select and both fields whatever the store does. The store takes it exactly when the selection is empty or the raffle exists, and then the selection, in selection order, is appended as fresh sold rows with the counter advanced by its size; otherwise the sold numbers and counter stay. Raffles and their counter always stay. |
| Actions.AcceptUpdate | app/src/main/java/com/example/rifas/ui/AppContent.kt:1277-1279 | "Actualizar" starts the download and withdraws the offer, so the dialog closes. |
| Actions.DismissUpdate | app/src/main/java/com/example/rifas/ui/AppContent.kt:1287 | "Más Tarde" withdraws the offer and leaves the download state alone. |

## Left out

- **Compose layout and platform code.** Colours, animations, navigation,
  the intro delay, `Theme.kt`, `Color.kt` and `MainActivity.kt` are not
  part of this model: they are UI with nothing to state.
- **Sharing images of the grid** (`shareRaffleImages`, `PageCapturer`):
  bitmap capture, files and Android intents. Only the page split and
  `pageInfo` the capture uses are modelled.
- **The network and the installer.** The fetch of `update.json`, Gson and
  the `DownloadManager` request become parameters: the outcome of
  `checkForUpdates`, what `enqueue` returned, the id of a completed
  download and the installed version code. `installApk`, the file
  provider and receiver registration are not modelled.
- ViewModel.RaffleViewModel.DownloadUpdate: an exception thrown by
  `registerReceiver` after a successful enqueue is not modelled. The model
  takes any enqueue failure as the only path back to "not downloading".
- **`RaffleDatabase.kt`** (the locked singleton, destructive migration) is
  not part of this model. Its effect on the tables — foreign keys on — is
  assumed by the DAO model.
- **Asynchrony.** Every `viewModelScope.launch` runs to completion, in call
  order, before the next user action. `Flow` collections are functions of
  the current tables.
- Dao.RaffleDao.InsertSoldNumbers: a foreign-key failure throws inside a
  coroutine and crashes the app. The model reports it as `ok == false`,
  with the tables unchanged, as the rolled-back transaction leaves them.
- Dao.RaffleDao.UpdateSoldNumber: likewise, a foreign-key failure throws
  inside a coroutine; the model reports it as `ok == false` with the
  tables unchanged. The app's own updates only mark existing rows paid,
  so they never reach it.
- KotlinText.ToIntOrNull: reads only the ASCII digits `0`-`9`. The JVM's
  `toIntOrNull` also reads every other Unicode decimal digit of the basic
  plane (Arabic-Indic, fullwidth and so on), whose set depends on the
  runtime's Unicode version. So a range typed in such digits passes
  `canSave` in the app but fails `Tickets.CanSave` and `Actions.SaveRaffle`
  here; for ASCII text the two agree.
- **Text semantics.** Only Latin-1 case mapping is modelled, with no locale
  rules and no Unicode beyond it. `compareTo` compares code points, where
  the JVM compares UTF-16 units (they differ only above U+FFFF). A JVM
  string's length is unbounded here; `Actions.SaveRaffle` requires range
  texts shorter than 2^31 so that `parsedDigits` fits an `Int`.
- **Money.** `toDoubleOrNull` is the parameter `parsePrice`, and amounts
  are exact reals: no `Double` rounding, no currency formatting, no
  per-client progress. `toDoubleOrNull` also reads "NaN" and "Infinity",
  and a real cannot hold such a price, so `parsePrice` only covers finite
  ones.
- **Ids.** Ids are unbounded integers, not 64-bit `Long`s.
- **`getAllSoldNumbers`.** RaffleDao.kt declares no `getAllSoldNumbers`
  and RaffleViewModel.kt declares no `allSoldNumbers`. The model reads
  them as "every sold-number row, each once, in an order nobody relies on".
- **The delete-raffle dialog** (AppContent.kt:1768) is a plain call of
  `ViewModel.RaffleViewModel.DeleteRaffle`; it has no member of its own.
- Actions.ConfirmPayment and Actions.DeleteBuyer are stated as the table
  the loop reaches. What that means for the buyer (`MarkPaidSpec`,
  `MarkPaidPaysBuyer`, `DeleteAllSpec`) is proved for tickets that are
  rows of the table, which is how the screens build a buyer.
