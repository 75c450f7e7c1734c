# Ticket machine purchase engine

A Dafny model of the purchase engine of a console ticket machine for trains
leaving Birmingham Central. The engine has five parts:

- **Catalog** (`Machine`): an ordered list of destinations. Each has a single
  price, a return price and a sales count. Ten destinations are seeded at
  start-up.
- **Revenue ledger** (`Ledger`): a map from station name to takings. An
  unknown station reads as 0, and the total is the sum of all entries.
- **Offer resolver** (`Offers`): filters special offers by station name
  (case-insensitive) and by an inclusive date window. It then picks the
  highest discount; ties go to the offer added earliest.
- **Pricing** (`Pricing`): picks the base price by ticket type and takes an
  active offer's percentage off. The two purchase services write this
  formula differently; both forms are modelled and proved to agree.
- **Payment state machine** (`Purchase`): a balance that only positive
  insertions raise. A sale is never committed while the balance is below
  the price. A sale deducts the price, bumps one sales count, credits the
  ledger, issues a ticket and returns the rest as change.

The admin screens (`Admin`) validate new destinations, update names and
prices, scale every price by one factor and rank destinations by takings.
The stand-alone `models` destination record (`Models`) keeps its own count
and takings.

Money is integer pence, discounts and price factors are whole percentages,
and dates are day numbers. The interactive prompts become parameters:

- A menu choice or typed number is an `int`.
- A typed price that may not parse is an `Option<int>`.
- A yes/no answer is a `bool`.
- The amounts typed during the "insert more money?" loop are a sequence
  `topUps`. When the sequence runs out, the customer has answered "n".

`Sale` is the specification of one purchase on a `Till` (balance, catalog,
ledger). `TicketService.ProceedToPurchase` is proved to change the service
and machine exactly as `Sale` says. The lemmas about `Sale` then state
pay-before-issue, the change, the ticket and the bookkeeping.

`CatalogValid` is the catalog invariant: distinct names (ignoring case),
positive prices and non-negative counts. It holds for the seeded catalog.
Adding, updating and scaling by at least 50% preserve it, and so does
selling.

## Model

| member | source | states |
|---|---|---|
| Data.NewDestination | src/main/kotlin/data/DataClasses.kt:17-22 | a destination built without a sales count starts at 0, with the given name and prices |
| Text.Trim | src/main/kotlin/services/adminServices.kt:71 | the trimmed name is the slice of the input left after removing a whitespace prefix and a whitespace suffix, and it neither starts nor ends with whitespace; it is empty exactly when the input is all whitespace |
| Ledger.Credit | src/main/kotlin/com/ticketmachine/TicketMachine.kt:62-65 | the named station's takings rise by exactly the amount (a missing entry counts as 0); every other entry is unchanged; the key set gains the station |
| Ledger.TotalRemove | src/main/kotlin/com/ticketmachine/TicketMachine.kt:73-75 | the sum of the entries does not depend on the order they are added in: removing any key lowers the total by that key's value |
| Ledger.TotalCredit | src/main/kotlin/com/ticketmachine/TicketMachine.kt:62-65 | crediting a station raises the total takings by exactly the amount |
| Ledger.TotalReset | src/main/kotlin/com/ticketmachine/TicketMachine.kt:54-57 | setting a station's takings to 0 lowers the total by what that station had |
| Ledger.TotalNonNegative | src/main/kotlin/com/ticketmachine/TicketMachine.kt:73-75 | a ledger with no negative entry has a non-negative total |
| Ledger.TotalAllZero | src/main/kotlin/com/ticketmachine/TicketMachine.kt:45-47 | a ledger whose entries are all 0 totals 0 |
| Ledger.TakingsAtMostTotal | src/main/kotlin/com/ticketmachine/TicketMachine.kt:68-75 | with no negative entry, one station's takings lie between 0 and the total |
| Offers.Filter | src/main/kotlin/com/ticketmachine/TicketMachine.kt:80-85 | keeps exactly the offers whose station matches ignoring case and whose window contains today |
| Offers.MaxByDiscount | src/main/kotlin/com/ticketmachine/TicketMachine.kt:86 | no result only for an empty list; otherwise an element of the list whose discount is at least every other's |
| Offers.ActiveOffer | src/main/kotlin/com/ticketmachine/TicketMachine.kt:80-86 | a returned offer is a stored offer that applies to the station on the day, and no applicable offer has a larger discount |
| Offers.ActiveOfferSnoc | src/main/kotlin/com/ticketmachine/TicketMachine.kt:86 | a later-added offer replaces the current best only with a strictly larger discount |
| Offers.ActiveOfferNone | src/main/kotlin/com/ticketmachine/TicketMachine.kt:78-87 | no active offer exactly when no stored offer applies to the station on the day |
| Offers.ActiveOfferBestAt | src/main/kotlin/com/ticketmachine/TicketMachine.kt:86 | an active offer is always the earliest-added applicable offer with the largest discount |
| Offers.ActiveOfferIsEarliestBest | src/main/kotlin/com/ticketmachine/TicketMachine.kt:78-87 | no offer exactly when none applies; otherwise the result is the earliest-added applicable offer with the largest discount |
| Pricing.RoundPence | src/models/destination.kt:33 | the result is the nearest penny to an amount in hundredths of a penny, halves upward |
| Pricing.BasePrice | src/main/kotlin/services/ticketService.kt:51-55 | the single price for a single ticket and the return price for a return ticket |
| Pricing.DiscountByFactor | src/main/kotlin/services/ticketService.kt:60 | the price times (100 - discount)%, to the nearest penny; never negative and never above a non-negative base; below the base exactly when the discount is worth more than half a penny |
| Pricing.DiscountBySubtraction | src/main/kotlin/services/TicketService.kt:71-72 | the base minus discount% of the base, to the nearest penny |
| Pricing.FormulasAgree | src/main/kotlin/services/TicketService.kt:70-80 | the two services' discount formulas give the same price on every input |
| Pricing.QuoteByFactor | src/main/kotlin/services/ticketService.kt:51-67 | with no active offer the base price for the type; with one, the base times (100 - discount)% to the nearest penny, which lies between 0 and the base and is below it exactly when the discount is worth more than half a penny |
| Pricing.QuoteBySubtraction | src/main/kotlin/services/TicketService.kt:62-80 | the second service quotes the same price as the first on every destination, type, offer list and day |
| Pricing.ScaledPrice | src/models/destination.kt:33-34 | the price times the factor percent, to the nearest penny |
| Pricing.ScaleByHundred | src/main/kotlin/services/adminServices.kt:246-247 | a factor of 100% (a custom change of 0%) leaves every price as it was |
| Pricing.ScaleMonotone | src/models/destination.kt:33-34 | a positive factor keeps the order of prices and keeps non-negative prices non-negative |
| Pricing.ScaleKeepsPositive | src/models/destination.kt:25-34 | a positive price stays positive under any factor of at least 50% |
| Machine.FindByName | src/main/kotlin/services/ticketService.kt:172-174 | no result exactly when no destination matches ignoring case; otherwise the first one that matches |
| Machine.DefaultNamesUnique | src/main/kotlin/com/ticketmachine/TicketMachine.kt:29-40 | no two seeded names are the same ignoring case |
| Machine.DefaultCatalog | src/main/kotlin/com/ticketmachine/TicketMachine.kt:29-40 | the seeded catalog has ten destinations, all with sales count 0 and positive prices, and their names are distinct |
| Machine.AppendKeepsNamesUnique | src/main/kotlin/com/ticketmachine/TicketMachine.kt:54-57 | appending a destination whose name is not listed keeps names distinct |
| Machine.TicketMachine.constructor | src/main/kotlin/com/ticketmachine/TicketMachine.kt:22-25 | a new machine holds the seeded catalog, a takings entry of 0 for each seeded station and no offers |
| Machine.TicketMachine.InitializeDestinations | src/main/kotlin/com/ticketmachine/TicketMachine.kt:28-48 | the seeded catalog is appended and every listed station's takings are set to 0; other entries and the offers stay |
| Machine.TicketMachine.AddDestination | src/main/kotlin/com/ticketmachine/TicketMachine.kt:54-57 | the destination is appended after the earlier ones and its takings become 0, overwriting an existing entry |
| Machine.TicketMachine.GetOriginStation | src/main/kotlin/com/ticketmachine/TicketMachine.kt:60 | the origin is always "Birmingham Central" |
| Machine.TicketMachine.AddToTakings | src/main/kotlin/com/ticketmachine/TicketMachine.kt:62-65 | the ledger becomes its credit by the amount; catalog and offers unchanged |
| Machine.TicketMachine.GetStationTakings | src/main/kotlin/com/ticketmachine/TicketMachine.kt:68-70 | 0 for a station never recorded; with no negative entry, between 0 and the total |
| Machine.TicketMachine.GetTotalTakings | src/main/kotlin/com/ticketmachine/TicketMachine.kt:73-75 | the loop's result is the sum of all ledger entries |
| Machine.TicketMachine.GetActiveOfferForStation | src/main/kotlin/com/ticketmachine/TicketMachine.kt:78-87 | the result is a stored offer that applies, with a discount at least every other applicable offer's; none exactly when no stored offer applies |
| Machine.TicketMachine.AddSpecialOffer | src/main/kotlin/com/ticketmachine/TicketMachine.kt:90-92 | one offer is appended and nothing is removed; catalog and ledger unchanged |
| Machine.TicketMachine.InitializeForTesting | src/main/kotlin/com/ticketmachine/TicketMachine.kt:98-101 | the first destination named exactly "London" gets sales count 5 and London's takings become 22750 pence; nothing else changes |
| Models.Destination.constructor | src/models/destination.kt:3-9 | a new record has the given name and prices, nothing sold and no takings |
| Models.Destination.RecordSale | src/models/destination.kt:12-17 | tickets sold rises by exactly 1 and takings by exactly the price; name and prices unchanged |
| Models.Destination.AdjustPrices | src/models/destination.kt:19-39 | a factor of 0 or below is refused and both prices stay; otherwise both become the scaled, rounded old prices; name, count and takings never change |
| Purchase.AfterInsert | src/main/kotlin/services/ticketService.kt:94-99 | an amount of 0 or below leaves the balance; a positive amount raises it by exactly that amount |
| Purchase.Collect | src/main/kotlin/services/ticketService.kt:112-126 | the balance after the top-up loop never falls and rises by at most the accepted amounts; if still below the price, every amount was inserted; a balance already covering the price is not asked for more |
| Purchase.CollectStops | src/main/kotlin/services/ticketService.kt:112-126 | the loop stops after the first k top-ups: the result is the opening balance plus what those k attempts added, the balance was below the price after every shorter prefix, and the loop ends short of the price only when the top-ups have run out |
| Purchase.Sale | src/main/kotlin/services/TicketService.kt:118-165 | a purchase keeps the catalog's length; a cancelled purchase leaves the balance below the price; a sale leaves the balance at 0 and non-negative change |
| Purchase.PayBeforeIssue | src/main/kotlin/services/ticketService.kt:112-129 | a ticket is sold only if balance plus accepted top-ups reaches the price, and is always sold when they do |
| Purchase.SaleChange | src/main/kotlin/services/TicketService.kt:159-162 | the change is the collected balance minus the price, and the balance is 0 afterwards |
| Purchase.SaleTicket | src/main/kotlin/services/ticketService.kt:134-140 | the ticket carries the origin, the destination's name, the price paid, the type and the day |
| Purchase.SaleBookkeeping | src/main/kotlin/services/TicketService.kt:140-146 | a sale raises exactly one destination's count by 1 and its station's takings by the price; every other destination and station is unchanged; the ledger total rises by the price |
| Purchase.CancelChangesNothing | src/main/kotlin/services/ticketService.kt:118-123 | a declined top-up leaves catalog and ledger unchanged and keeps the inserted money in the balance, which is still below the price |
| Purchase.SaleKeepsInvariants | src/main/kotlin/services/ticketService.kt:129-131 | a purchase keeps the catalog valid, and a sale at a non-negative price keeps all takings non-negative |
| Purchase.TicketService.constructor | src/main/kotlin/services/ticketService.kt:10-12 | a new service starts with a balance of 0 |
| Purchase.TicketService.InsertMoney | src/main/kotlin/services/TicketService.kt:99-113 | an amount of 0 or below is refused and the balance stays; a positive amount is added |
| Purchase.TicketService.ProceedToPurchase | src/main/kotlin/services/TicketService.kt:118-165 | the balance, catalog, ledger and outcome after the loop are exactly those of the purchase specification; offers unchanged |
| Purchase.TicketService.SearchTickets | src/main/kotlin/services/ticketService.kt:18-81 | an invalid destination or type number, or a refusal, changes nothing; otherwise the quoted price, with any active offer, is bought as the purchase specification says |
| Purchase.TicketService.QuickPurchase | src/main/kotlin/services/ticketService.kt:171-188 | an unknown name (ignoring case) changes nothing; otherwise the first matching destination is bought at its undiscounted price for the type |
| Purchase.TicketService.ReturnMoney | src/main/kotlin/services/TicketService.kt:196-203 | the whole balance is handed back and the balance is 0 |
| Admin.CheckNewDestination | src/main/kotlin/services/adminServices.kt:67-117 | a destination is accepted exactly when the trimmed name is non-empty and not listed ignoring case, both prices are positive numbers, and a return price below the single price is confirmed; it then has the trimmed name, the prices and count 0; an all-whitespace name is the empty-name error |
| Admin.AddKeepsCatalogValid | src/main/kotlin/services/adminServices.kt:78-117 | appending an accepted destination keeps the catalog valid |
| Admin.WithSinglePrice | src/main/kotlin/services/adminServices.kt:194-205 | only a positive number replaces the single price; otherwise the destination is unchanged |
| Admin.WithReturnPrice | src/main/kotlin/services/adminServices.kt:207-218 | only a positive number replaces the return price; otherwise the destination is unchanged |
| Admin.RenameAsWritten | src/main/kotlin/services/adminServices.kt:183-192 | as written: only the chosen destination can change, only to the trimmed name, and it changes exactly when the trimmed name is non-empty and differs from the current name, with no duplicate check |
| Admin.Rename | src/main/kotlin/services/adminServices.kt:183-192 | the corrected rename keeps the catalog's length; its full effect is stated by Admin.RenameEffect |
| Admin.RenameEffect | src/main/kotlin/services/adminServices.kt:183-192 | only that destination can change, and only to the trimmed name; it changes exactly when the trimmed name is non-empty, differs from the current one and is not another destination's name ignoring case |
| Admin.RenameKeepsNamesUnique | src/main/kotlin/services/adminServices.kt:183-192 | renaming keeps all names distinct ignoring case |
| Admin.RenameAsWrittenBreaksUniqueness | src/main/kotlin/services/adminServices.kt:187-189 | without the duplicate check, renaming "Leeds" to "london" next to "London" leaves two equal names |
| Admin.SetSingle | src/main/kotlin/services/adminServices.kt:198-200 | only the chosen destination can change, by the single-price rule |
| Admin.SetReturn | src/main/kotlin/services/adminServices.kt:211-213 | only the chosen destination can change, by the return-price rule |
| Admin.SetSingleKeepsCatalogValid | src/main/kotlin/services/adminServices.kt:198-200 | a single-price update keeps the catalog valid |
| Admin.SetReturnKeepsCatalogValid | src/main/kotlin/services/adminServices.kt:211-213 | a return-price update keeps the catalog valid |
| Admin.RenameKeepsCatalogValid | src/main/kotlin/services/adminServices.kt:187-191 | a rename keeps the catalog valid |
| Admin.UpdateChoice | src/main/kotlin/services/adminServices.kt:165-180 | every option keeps the catalog's length; an option outside 1-5 changes nothing |
| Admin.BothPricesKeepCatalogValid | src/main/kotlin/services/adminServices.kt:169-172 | updating both prices keeps the catalog valid and the sales count |
| Admin.BothPricesTouchOnlyChosen | src/main/kotlin/services/adminServices.kt:169-172 | updating both prices leaves every other destination unchanged |
| Admin.UpdateTouchesOnlyChosen | src/main/kotlin/services/adminServices.kt:165-180 | whatever the option, every destination other than the chosen one is unchanged |
| Admin.UpdateKeepsCatalogValid | src/main/kotlin/services/adminServices.kt:128-218 | every update option keeps the catalog valid and leaves the sales count alone |
| Admin.FactorAsWritten | src/main/kotlin/services/adminServices.kt:239-257 | as written: a factor exactly for options 1-5; the four presets lie within 10% of 100% and differ from it; option 5 is 100% plus the custom percentage, unchecked |
| Admin.SelectFactor | src/main/kotlin/services/adminServices.kt:239-257 | the menu's factor when it is positive; no factor for an unknown option or a factor of 0 or below |
| Admin.ScaleAll | src/main/kotlin/services/adminServices.kt:282-286 | one entry per destination, with the same name and sales count and both prices multiplied by the factor to the nearest penny |
| Admin.ScaleAllKeepsCatalogValid | src/main/kotlin/services/adminServices.kt:281-286 | scaling keeps names and sales counts, and with a factor of at least 50% keeps the catalog valid |
| Admin.AsWrittenFactorZeroesPrices | src/main/kotlin/services/adminServices.kt:244-247 | as written, a custom change of -100% gives factor 0, and the seeded catalog's prices all become 0 |
| Admin.TakingsKeys | src/main/kotlin/services/adminServices.kt:298-300 | each destination's takings, by position, unknown stations as 0 |
| Admin.InsertPosition | src/main/kotlin/services/adminServices.kt:298-300 | inserting one position into a stably sorted list keeps it sorted and adds exactly that position |
| Admin.HeadBefore | src/main/kotlin/services/adminServices.kt:298-300 | in a stably sorted list the first position ranks before every later one |
| Admin.SortPositions | src/main/kotlin/services/adminServices.kt:298-300 | every position once, by descending takings, catalog order kept among equals |
| Admin.ReportOrder | src/main/kotlin/services/adminServices.kt:298-300 | the report order is a permutation of the catalog by non-increasing takings, stable among equal takings |
| Admin.RevenueReport | src/main/kotlin/services/adminServices.kt:298-303 | at most five destinations (all when fewer), the first ones in report order, takings never increasing |
| Admin.AdminService.constructor | src/main/kotlin/services/adminServices.kt:9 | the service works on the given machine |
| Admin.AdminService.AddDestination | src/main/kotlin/services/adminServices.kt:67-125 | an accepted destination is appended with takings 0; a rejected one changes nothing |
| Admin.AdminService.UpdateStationName | src/main/kotlin/services/adminServices.kt:183-192 | the catalog becomes the checked rename; ledger and offers unchanged |
| Admin.AdminService.UpdateSinglePrice | src/main/kotlin/services/adminServices.kt:194-205 | the catalog becomes the single-price update; ledger and offers unchanged |
| Admin.AdminService.UpdateReturnPrice | src/main/kotlin/services/adminServices.kt:207-218 | the catalog becomes the return-price update; ledger and offers unchanged |
| Admin.AdminService.UpdateDestination | src/main/kotlin/services/adminServices.kt:128-181 | an invalid destination number changes nothing; otherwise the menu option's update is applied |
| Admin.AdminService.AdjustAllPrices | src/main/kotlin/services/adminServices.kt:221-290 | an empty catalog, unknown option, factor of 0 or below, or no confirmation changes nothing; otherwise every destination is scaled and the updated count is the catalog size |
| Admin.AdminService.GenerateRevenueReport | src/main/kotlin/services/adminServices.kt:295-310 | at most five destinations, all from the catalog, with takings never increasing down the list |

## Left out

- Console I/O is not modelled: prompts, printed messages, the layout of `String.format`, `ConsoleUI` and the `main` menu loops. The answers become parameters.
- Amounts use integer pence, not `Double`. A discounted or scaled price is rounded to the nearest penny, halves upward. The source keeps the unrounded `Double` in the search screens and in `adjustAllPrices`. It rounds to two decimals only in `adjustPrices`, whose rounding helper is not part of this model.
- Purchase.TicketService.SearchTickets: the model charges the quoted price rounded to the penny. The source charges the unrounded `Double`.
- Admin.AdminService.AdjustAllPrices: the factor is a whole percentage and each scaled price is rounded to the penny. The source multiplies by a `Double` factor, so a fractional custom percentage is not modelled.
- Admin.ScaleAllKeepsCatalogValid: positivity is proved only for factors of at least 50%. Below that, rounding to the penny can turn a 1p price into 0p, which the source's unrounded product would not do.
- Discounts are whole percentages in 0..100, enforced by the type. The source's `Double` discount is unchecked.
- Name matching folds only ASCII letters, and trimming treats only ASCII whitespace and the control separators as blank. Kotlin's full Unicode case folding and `isWhitespace` are not modelled.
- `LocalDate.now()` becomes a `today` parameter, a day number.
- Input that does not parse as a number: a menu choice is passed as an invalid number. A price is passed as `None`. A typed amount is passed as 0, so the model refuses it, as `insertMoney` does.
- Kotlin `Int` overflow of sales counts is not modelled; integers are unbounded.
- A destination in the catalog is a value, and an update replaces the catalog entry. The source updates the shared `Destination` object, and the model does not capture aliasing of that object.
- Admin.AdminService.UpdateDestination: applies the menu's catalog update in one step. The source calls the per-field update functions one after another; they are modelled as the separate methods `UpdateStationName`, `UpdateSinglePrice` and `UpdateReturnPrice`, which give the same result.
- A rename does not move the station's takings entry, in the model as in the source. The renamed destination then reads the ledger entry of its new name: 0 if that name was never credited, otherwise whatever that station already took.
- Purchase.TicketService.ProceedToPurchase: requires a non-negative balance. This holds for every service, because only positive amounts are ever added.
- Purchase.CancelChangesNothing: declining to insert more money keeps the money in the balance, as the code does. It is handed back only by `returnMoney`.
- Ties between offers with the same discount go to the offer added earliest, as `maxByOrNull` does. The offer `id` plays no part.
- The getters `getDestinations`, `getSpecialOffers` and `getBalance` return the field value and have no contract of their own. `getSpecialOffers` returns a copy, which a sequence value is automatically.
- `viewAllDestinations` in adminServices.kt only prints, including averages and the percentage of total revenue, so it is not modelled. The `Double` percentages in the revenue report are not modelled either.
- src/main/kotlin/services/AdminService.kt (a display-only view), src/models/ticketService.kt (an incomplete stub), src/main/kotlin/ticketmachine/Main.kt (declarations only) and the duplicate record files src/models/ticket.kt, src/models/specialOffer.kt and src/main/kotlin/data/specialOffers.kt are not part of this model.
- The duplicate `main` functions and the test set-ups `initializeForMemberA`/`initializeForMemberB` are not part of this model.
- In src/models/destination.kt, `recordSale` and `adjustPrices` sit after the closing brace of the class. They are modelled as the members of `Destination` they are evidently meant to be.
- `User` in DataClasses.kt is not used by the engine and is not modelled.

## Findings

| source | as written | input that shows it | evidently intended | confidence | as-written member | corrected member |
|---|---|---|---|---|---|---|
| src/main/kotlin/services/adminServices.kt:244-247 | the custom percentage becomes factor `1 + percent/100` with no check, and the confirmed adjustment multiplies every price by it | option 5 with -100 (factor 0) on the seeded catalog: every price becomes 0; below -100 every price turns negative | refuse a factor of 0 or below, as `adjustPrices` in src/models/destination.kt:25-28 does, so prices stay positive | not executed | Admin.AsWrittenFactorZeroesPrices | Admin.SelectFactor |
| src/main/kotlin/services/adminServices.kt:187-189 | a rename checks only that the new name is non-empty and differs from the current one | catalog [London, Leeds], rename Leeds to "london": both entries now match "London" ignoring case | refuse a name another destination already has, as `addDestination` does at adminServices.kt:79-82, so names stay unique | not executed | Admin.RenameAsWrittenBreaksUniqueness | Admin.RenameKeepsNamesUnique |
