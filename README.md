# DankRipoffRemastered economy core, in Dafny

This project models the economy at the heart of the DankRipoffRemastered Discord bot. It covers:

- **the ledger**: each user's wallet, bank, bank space, experience and streaks, their inventory and their notifications;
- **the transactions**: withdraw, deposit, buy, sell, use, share, drop and crafting;
- **the amount parser**: the converters that turn what a user types into a bounded amount;
- **the item and recipe catalog**;
- **the game rules**: daily and weekly rewards, rob, fish and the dice game;
- **the small utilities**: levelling, emoji URLs, catalog queries, pagination, the leaderboard, the command signature renderer and the payload fold that turns a command's return value into a message.

Each source file is one Dafny module:

| module | source file |
|---|---|
| `Database` | `app/database/__init__.py` |
| `Transactions` | `app/extensions/transactions.py` |
| `Converters` | `app/util/converters.py` |
| `Common` | `app/util/common.py` |
| `Pagination` | `app/util/pagination.py` |
| `Items` | `app/data/items.py` |
| `Recipes` | `app/data/recipes.py` |
| `Profit` | `app/extensions/profit.py` |
| `Stats` | `app/extensions/stats.py` |
| `Casino` | `app/extensions/casino.py` |
| `Models` | `app/core/models.py` |
| `Helpers` | `app/core/helpers.py` |

Three supporting modules have no source file of their own:

- `Results` holds the `Option` and `Result` types that stand in for `None` and for raised exceptions.
- `Numeric` holds Python's `round`, `math.ceil` and floor division.
- `Text` holds ASCII case mapping, strip, split, join, replace, and decimal, grouped and hexadecimal rendering.

How the source's forms carry over:

- The objects the source updates in place are classes: `UserRecord`, `InventoryManager`, `NotificationsManager`, `Database`, `Paginator`, `DropView`, `RecipeView`, `RobbingKeypad` and `Context`. Their methods say what they modify and state the whole new state.
- Pure code is functions and lemmas.
- Loops are methods with invariants. These are the level loop, the recipe loops, the signature renderer and the payload fold.
- Random draws, clock readings, button clicks and typed replies are parameters of the methods that use them.
- Floats are exact reals.

## Model

| member | source | states |
|---|---|---|
| Database.Transferred | app/database/__init__.py:227-247 | moving an amount between two columns keeps their sum, and no other column of the row changes |
| Database.AddToTransferred | app/database/__init__.py:246-247 | a single `add` of minus the amount to one column and plus the amount to another is that transfer |
| Database.TransferKeepsCoins | app/database/__init__.py:320-322 | moving coins between wallet and bank, or between two columns that are neither, leaves `total_coins` as it was |
| Database.TransferredSolvent | app/database/__init__.py:305-323 | a deposit that fits in the bank's space, or a withdrawal of at most the bank, from a sound row leaves the row sound: nothing negative and the bank within its space |
| Database.AddTo | app/database/__init__.py:246-247 | `add` adds each given delta to its column and leaves every other column as it was |
| Database.AddToTwice | app/database/__init__.py:246-247 | two `add`s in a row are one `add` of the summed deltas |
| Database.LevelFromAtLeast | app/database/__init__.py:329-335 | the levelling loop never ends below the level it starts from |
| Database.LevelFromMonotone | app/database/__init__.py:329-335 | more experience never gives a lower level |
| Database.SetThenQuantity | app/database/__init__.py:92-114 | after an assignment to an item (or a key string naming one) its quantity reads back as the value assigned, every other key reads as before, and an assignment under a key string naming no item leaves the mapping as it was and its lookup still raises |
| Database.ContainsMeansStored | app/database/__init__.py:92-123 | membership holds exactly when the lookup succeeds and finds a stored entry; an item that is not stored reads as 0; once assigned, a known item is a member |
| Database.FetchedCacheSpec | app/database/__init__.py:137-142 | after `fetch_items`, the cache holds exactly the rows whose key names a catalog item, each with its row's count |
| Database.KnownCount | app/database/__init__.py:144-155 | for a catalog item, the cache and the table report the same count |
| Database.InventoryManager.constructor | app/database/__init__.py:127-142 | the new manager's cache is what `fetch_items` builds from the user's rows, and it agrees with the table |
| Database.InventoryManager.FetchItems | app/database/__init__.py:137-142 | each row is written into the cache through the key-resolving assignment, in order |
| Database.InventoryManager.AddItem | app/database/__init__.py:144-155 | the stored count under the item's key goes up by the amount, the cache takes the returned count, and for a catalog item no other count changes; cache and table still agree |
| Database.NotificationsManager.constructor | app/database/__init__.py:178-182 | the cache holds the fetched rows |
| Database.NotificationsManager.AddNotification | app/database/__init__.py:184-195 | the new notification goes in front of the cache and the owner's unread counter goes up by exactly one; no other column changes |
| Database.Bonused | app/database/__init__.py:260-272 | an experience draw and a bank-space draw move only the experience and the bank space, each by its gain |
| Database.DeathRow | app/database/__init__.py:274-302 | death adds one unread notification, and empties the wallet unless a lifesaver is held, in which case the wallet is kept |
| Database.DeathNote | app/database/__init__.py:274-302 | the notification `make_dead` adds is dated now and titled "You almost died!" exactly when a lifesaver is held, "You died!" otherwise, the latter naming the wallet and the stack lost |
| Database.UserRecord.constructor | app/database/__init__.py:203-209 | a new record is unfetched, for its own user, with fresh managers |
| Database.UserRecord.FetchIfNecessary | app/database/__init__.py:221-225 | an unfetched record takes the row; a fetched one is left as it was |
| Database.UserRecord.Update | app/database/__init__.py:243-244 | the given columns take the given values; every other column is unchanged |
| Database.UserRecord.Add | app/database/__init__.py:246-247 | the given deltas are added, as `AddTo` says |
| Database.UserRecord.AddCoins | app/database/__init__.py:249-252 | the wallet goes up by exactly the coins, which are returned |
| Database.UserRecord.AddExp | app/database/__init__.py:254-258 | the experience goes up by the amount; the result is true exactly when the level rose, and a non-negative amount never lowers the level |
| Database.UserRecord.AddRandomBankSpace | app/database/__init__.py:260-265 | an unlucky draw adds nothing; a lucky one adds the drawn amount to the bank space and returns it |
| Database.UserRecord.AddRandomExp | app/database/__init__.py:267-272 | an unlucky draw adds nothing; a lucky one adds the drawn amount to the experience and returns it |
| Database.UserRecord.MakeDead | app/database/__init__.py:274-302 | with a lifesaver, one lifesaver is used up and the wallet is kept; without one, the wallet becomes 0 and the chosen non-empty stack (if any) is removed; either way the one notification `DeathNote` gives is added in front and nothing else changes |
| Database.UserRecord.Survive | app/database/__init__.py:276-283 | exactly one lifesaver is used, one "You almost died!" notification is added, and no other column than the unread count changes |
| Database.UserRecord.Die | app/database/__init__.py:285-302 | the wallet becomes zero, the chosen stack (if any) is removed entirely, and one "You died!" notification naming the coins and the stack lost is added |
| Database.Database.constructor | app/database/__init__.py:67-70 | the record cache starts empty |
| Database.Database.GetUserRecord | app/database/__init__.py:79-88 | the same record is returned for the same id; a new id gets a fresh record; with `fetch` the record is fetched unless it already was; no other user's record changes |
| Database.CachedRecordsSeparate | app/database/__init__.py:79-88 | the cached records of two different users share no object |
| Transactions.Bonuses | app/extensions/transactions.py:409-410 | the two bonus draws move only the experience and the bank space |
| Transactions.Transfer | app/extensions/transactions.py:287 | one `add` moves the amount between the two columns, as `Transferred` says |
| Transactions.Withdraw | app/extensions/transactions.py:279-298 | the amount the converter accepts moves from the bank into the wallet, and the total of wallet and bank is unchanged; a rejected argument changes nothing |
| Transactions.Deposit | app/extensions/transactions.py:301-320 | the amount the converter accepts moves from the wallet into the bank, and the total of wallet and bank is unchanged; a rejected argument changes nothing |
| Transactions.BankTransactionSound | app/extensions/transactions.py:287 | a withdrawal or deposit keeps wallet plus bank, and keeps a sound account sound: the wallet never goes negative and the bank never exceeds its space |
| Transactions.QueriedFromCatalog | app/util/converters.py:204-215 | an item found by a query is one of the catalog's items |
| Transactions.ResolvedFromCatalog | app/util/converters.py:143-158 | the item the converter resolves, whichever of its three tries finds it, is a catalog item |
| Transactions.CatalogItemKnown | app/database/__init__.py:98-105 | an item walked from the catalog is found again by its key, so the inventory caches it |
| Transactions.ConvertedItemKnown | app/util/converters.py:137-199 | the item a converter hands to a command is a catalog item |
| Transactions.ConvertItemSound | app/util/converters.py:137-199 | every value the item converter accepts is a catalog item with the needed flag, at least one unit, affordable for a purchase and held for every other kind |
| Transactions.Settled | app/extensions/transactions.py:408-414 | after the bonuses and a wallet change, only the wallet, experience and bank space moved, each by its own amount |
| Transactions.Settle | app/extensions/transactions.py:408-414 | the ledger block of buy and sell: the record becomes `Settled`, and the item's count moves by the delta with every other count unchanged |
| Transactions.Buy | app/extensions/transactions.py:392-423 | without confirmation it is cancelled and nothing changes; with it, the price of the whole quantity leaves the wallet and the quantity enters the inventory |
| Transactions.BuyKeepsSolvent | app/extensions/transactions.py:396-414 | a converted purchase never overdraws the wallet and keeps a sound account sound |
| Transactions.Sell | app/extensions/transactions.py:425-456 | without confirmation it is cancelled and nothing changes; with it, the sale value of the whole quantity enters the wallet and the quantity leaves the inventory |
| Transactions.SellKeepsCount | app/extensions/transactions.py:429-447 | a converted sale leaves a non-negative count of the item, strictly lower than before |
| Transactions.ItemUseAsWritten | app/data/items.py:91-99 | as written, using an item returns nothing |
| Transactions.UseAsWritten | app/extensions/transactions.py:462-476 | as written, the bonuses are drawn and then the comparison of nothing with zero raises a TypeError; the inventory never changes |
| Transactions.Use | app/extensions/transactions.py:462-476 | corrected: the bonuses are drawn, and a disposable item loses exactly the used count when that count is positive; otherwise the inventory is unchanged |
| Transactions.ConvertEntitySound | app/extensions/transactions.py:499 | the union converter gives coins between one and the wallet, or a giftable held item, and a rejection reports both converters' errors |
| Transactions.Credit | app/extensions/transactions.py:526-533 | the record's holding of the entity moves by exactly the amount, and nothing else changes |
| Transactions.Hand | app/extensions/transactions.py:524-544 | the entity leaves the author and reaches the recipient in the same size, as `Credit` gives each row and inventory whole, and the recipient gets exactly one notification and one more unread; nothing else of either record changes |
| Transactions.ReceivedData | app/extensions/transactions.py:524-544 | the recipient's row has one more unread notification and, for coins, the amount in the wallet |
| Transactions.Share | app/extensions/transactions.py:499-553 | bots, the author themself and an unconfirmed share are refused with their messages, in that order, and change nothing; otherwise the entity moves from the author (who keeps a non-negative holding) to the recipient, both rows and inventories given whole, and the recipient gets one notification titled by what was given |
| Transactions.FirstOther | app/extensions/transactions.py:59-65 | the winner is never the author |
| Transactions.FirstOtherSpec | app/extensions/transactions.py:59-65 | the winner is one of the clicks, and there is none exactly when every click was the author's |
| Transactions.DropView.constructor | app/extensions/transactions.py:51-57 | a new drop has no winner and an enabled button |
| Transactions.DropView.Click | app/extensions/transactions.py:59-77 | the author's click is turned away and changes nothing; anyone else becomes the winner, the button is disabled and the view stops |
| Transactions.DropView.Timeout | app/extensions/transactions.py:79-85 | on timeout the claim button is disabled and the winner is kept |
| Transactions.Listen | app/extensions/transactions.py:586-591 | after the clicks, the winner is the first click that was not the author's |
| Transactions.Drop | app/extensions/transactions.py:559-616 | with no winner, both records end as they began; otherwise the entity has left the author and reached the winner, who is never the author, with both rows and inventories given whole |
| Transactions.Deliver | app/extensions/transactions.py:592-610 | an unclaimed drop is credited back to the author and leaves the winner's record alone; a claimed one leaves the author as they were and credits exactly the entity to the winner's row and inventory, nothing else |
| Transactions.TableCraftable | app/data/recipes.py:16-70 | every recipe of the table has a positive price and non-empty, positive ingredients, as `_get_max` needs |
| Transactions.QuantityInDistinct | app/data/recipes.py:16-70 | with distinct keys, an entry's key gives back that entry's quantity |
| Transactions.QuantityInAbsent | app/data/recipes.py:16-70 | an item a recipe does not list has quantity zero |
| Transactions.IngredientMaxSpec | app/extensions/transactions.py:229-232 | an amount is at most the ingredient bound exactly when every ingredient covers that amount |
| Transactions.GetMaxSpec | app/extensions/transactions.py:229-233 | an amount is at most `_get_max` exactly when the wallet pays for it and every ingredient covers it |
| Transactions.AddCounts | app/extensions/transactions.py:205-209 | after the loop, each item's count has moved by the factor times its listed quantity, and no unlisted count has moved |
| Transactions.Produce | app/extensions/transactions.py:202-209 | the price of the units leaves the wallet, the ingredients are consumed and the results are added |
| Transactions.CraftedEach | app/extensions/transactions.py:202-209 | each ingredient that is not also the result loses exactly its quantity times the amount, and the result gains exactly the amount |
| Transactions.RecipeView.constructor | app/extensions/transactions.py:119-129 | the view opens on the recipe, with the buttons enabled exactly as `update` says |
| Transactions.RecipeView.Update | app/extensions/transactions.py:161-175 | the craft buttons are enabled exactly when the recipe is discovered and at least one unit can be crafted; their style is primary exactly when discovered; the Craft Max label shows the maximum only when discovered |
| Transactions.RecipeView.Craft | app/extensions/transactions.py:177-209 | undiscovered, short of coins and short of ingredients are refused in that order with their messages and change nothing; otherwise the units are crafted; it goes through exactly when none of the three applies |
| Transactions.CraftWithinMax | app/extensions/transactions.py:239-241 | an amount no larger than `_get_max` is always paid for and covered |
| Transactions.CustomAmount | app/extensions/transactions.py:256-257 | the typed amount is read by `get_amount` with `_get_max` as total and maximum, so an accepted amount lies between one and that maximum |
| Transactions.CraftCustom | app/extensions/transactions.py:243-261 | no reply gets "You took too long to respond, cancelling."; a rejected amount is reported by its exception's name; in both cases nothing changes; an accepted amount crafts exactly when the recipe is discovered, charging the price per unit and adding that many results for the ingredients taken, and otherwise nothing changes |
| Transactions.CraftAmount | app/extensions/transactions.py:256-261 | an amount rejected by the converter is reported by name and changes nothing; an accepted one crafts exactly when the recipe is discovered, charging the price per unit and adding that many results |
| Transactions.CraftUpToMax | app/extensions/transactions.py:239-241 | crafting at most `_get_max` units succeeds exactly when the recipe is discovered, charging the price per unit and moving ingredients to results for that many units; otherwise the record and inventory are untouched |
| Transactions.CraftMax | app/extensions/transactions.py:239-241 | the "Craft Max" button crafts exactly `_get_max` units when the recipe is discovered, charged and counted as for any amount; otherwise it reports the undiscovered recipe and changes nothing |
| Transactions.Craft | app/extensions/transactions.py:634-666 | short ingredients, then short coins, are refused and change nothing; otherwise the recipe is added to the discovered ones exactly when it was not there, and one unit is crafted |
| Converters.GetNumberEmpty | app/util/converters.py:18-20 | an argument that is nothing but whitespace, commas and plus signs raises ValueError |
| Converters.CleanGrouped | app/util/converters.py:18 | the normalisation turns a `{:,}`-formatted integer into its plain numeral |
| Converters.GetNumberGrouped | app/util/converters.py:17-35 | a digit-grouped integer reads back as itself (the specification of `Converters.GetNumber` and `Converters.GetNumberAsWritten`) |
| Converters.GetNumberDecimal | app/util/converters.py:17-35 | a plain integer numeral reads back as itself |
| Converters.ReadSuffixed | app/util/converters.py:22-28 | digits followed by `k`, `m` or `b` (once the letter is stripped) are that many thousands, millions or billions |
| Converters.GetNumberSuffix | app/util/converters.py:23-26 | digits followed by `k` are that many thousands, followed by `m` that many millions (the specification of `Converters.GetNumber` and `Converters.GetNumberAsWritten`) |
| Converters.GetNumberBillions | app/util/converters.py:27-28 | in the corrected definition, digits followed by `b` are that many billions |
| Converters.GetNumberAsWrittenRejectsBillions | app/util/converters.py:27-28 | as written, every argument whose cleaned form ends in `b` raises ValueError, because only `k` is stripped |
| Converters.FiveBillion | app/util/converters.py:27-28 | "5b" is rejected as written and is 5,000,000,000 once corrected |
| Converters.ScientificMantissa | app/util/converters.py:30-32 | in the short scientific form the mantissa is the first digit |
| Converters.ScientificCapped | app/util/converters.py:30-33 | the short scientific form never yields more than `10 ** 24` |
| Converters.ScientificExponentUnsigned | app/util/converters.py:31-32 | the exponent starts with a digit, so it is read as a natural number |
| Converters.ParseAmount | app/util/converters.py:55-87 | reading the argument can only fail with NotAnInteger or a division by zero |
| Converters.ReadAmount | app/util/converters.py:55-87 | the dispatch of `get_amount` over the corrected `get_number`: all/max, half, percentages, fractions, then numbers, failing only with NotAnInteger or a division by zero |
| Converters.ReadAmountAsWritten | app/util/converters.py:55-87 | the same dispatch over `get_number` as written, failing only with NotAnInteger or a division by zero |
| Converters.AmountAsWrittenAgrees | app/util/converters.py:50-87 | `get_amount` as written and the corrected one read every argument alike, except one whose cleaned form ends in `b` |
| Converters.AmountAsWrittenRejectsBillions | app/util/converters.py:83-87 | as written, an argument that reaches `get_number` and ends in `b` is NotAnInteger |
| Converters.FiveBillionAmount | app/util/converters.py:83-87 | `"5b"` is NotAnInteger as written and five billion as corrected |
| Converters.SameNumberSameAmount | app/util/converters.py:55-87 | the dispatch depends on `get_number` only through its result |
| Converters.ReadPercent | app/util/converters.py:63-70 | a percentage that is not a number raises NotAnInteger, and nothing else |
| Converters.ReadFraction | app/util/converters.py:72-82 | a fraction fails only with NotAnInteger or a division by zero |
| Converters.CheckAmountSpec | app/util/converters.py:89-101 | NotEnough exactly when the amount exceeds the total; NotAnInteger exactly when it is not positive (and within the total); PastMinimum exactly when it is positive, within the total and the maximum, and below the minimum; otherwise the amount, capped at the maximum (the specification of `Converters.CheckAmount`) |
| Converters.GetAmountBounds | app/util/converters.py:50-101 | a returned amount is at most the maximum and the total, and is either the maximum or a positive amount no smaller than the minimum; a total below one returns nothing (the specification of `Converters.GetAmount`) |
| Converters.GetAmountInRange | app/util/converters.py:89-101 | with `0 < maximum` and `minimum <= maximum`, an amount lies in `[minimum, maximum]` and in `[1, total]` |
| Converters.ParseAll | app/util/converters.py:57-58 | `all`, `max`, `a` and `m`, in any case and with surrounding whitespace, mean the whole total |
| Converters.ParseHalf | app/util/converters.py:60-61 | `half` and `h` mean half the total, rounded half to even: an exact half for an even total, never more than the total |
| Converters.FractionOverZero | app/util/converters.py:79-80 | a fraction over zero raises ZeroDivisionError |
| Converters.GetAmountOfNumeral | app/util/converters.py:84-96 | typing a number within the bounds and the total gives exactly that number |
| Converters.ParseNumeral | app/util/converters.py:84-85 | a plain numeral is read as its value |
| Converters.BankTransaction | app/util/converters.py:222-252 | a deposit is positive, from the wallet, and fits in the bank's free space; a withdrawal is positive and at most the bank; with no free space a deposit is refused; PastMinimum never escapes |
| Converters.BankResult | app/util/converters.py:237-250 | with room left, the amount is positive, within what is available and within the room |
| Converters.GetAmountNoMinimum | app/util/converters.py:238 | with a minimum of zero, PastMinimum cannot be raised |
| Converters.InvestmentBounds | app/util/converters.py:255-276 | with the default bounds, an investment is between 500 and 50,000,000 coins and never more than the wallet (the specification of `Converters.Investment`) |
| Converters.DropAmountBounds | app/util/converters.py:279-297 | a drop is between one coin and the whole wallet (the specification of `Converters.DropAmount`) |
| Converters.CasinoBetBounds | app/util/converters.py:300-318 | with the default bounds, a bet is between 200 and 500,000 coins and never more than the wallet (the specification of `Converters.CasinoBet`) |
| Converters.ItemAndQuantityBounds | app/util/converters.py:137-199 | a converted item carries the flag its kind needs; the quantity is at least one; a purchase at a positive price is affordable; any other kind is at most what is held (the specification of `Converters.ItemAndQuantityConvert`) |
| Converters.ItemFlagCheckedFirst | app/util/converters.py:157-170 | an item without the flag its kind needs is refused with that kind's message, whatever quantity was typed |
| Converters.ItemNeverPastMinimum | app/util/converters.py:180-184 | because the total and the maximum coincide, the minimum of one is never the reason for a refusal |
| Converters.ResolveWholeArgument | app/util/converters.py:143-144 | when the whole argument names an item, that item is used with the quantity "1" |
| Converters.ResolveLastThenFirst | app/util/converters.py:146-155 | otherwise, with several words, the last word is tried as the quantity before the first word (the specification of `Converters.ResolveItem`) |
| Common.LevelRequirementFor | app/util/common.py:44-46 | the requirement is a multiple of 100, at least `base * factor ** level` and less than 100 above it |
| Common.RequirementAtLeast100 | app/util/common.py:44-46 | with a positive base and factor every level costs at least 100 experience, so the levelling loop always ends |
| Common.CalculateLevel | app/util/common.py:49-57 | the loop's result is the levelling function's; the leftover is at most the reported requirement, which is that level's; the requirements of the levels passed plus the leftover add up to the experience given |
| Common.LevelFromSpec | app/util/common.py:53-55 | from any level, the loop only climbs; the leftover is positive once a level is gained and at most the final requirement; nothing is lost |
| Common.CalculateLevelSpec | app/util/common.py:49-57 | the same from level 0: the leftover is at most the requirement and positive past level 0; levels passed plus leftover equal the experience |
| Common.ParseRenderedEmoji | app/util/common.py:23 | a well-formed custom emoji (2-32 word characters, 17-25 digit id), followed by anything, is matched by the emoji pattern and gives back its animation flag, name and id |
| Common.NameAndIdRoundTrip | app/util/common.py:23 | after the opening, a well-formed emoji's `name:id>` is read back as that emoji, whatever follows it |
| Common.ImageUrlFromEmoji | app/util/common.py:60-67 | an empty string fails (`emoji[0]`); a custom emoji gives the CDN URL of its id with `.gif` or `.png`; anything else gives the twemoji URL of the first code point |
| Common.CustomEmojiUrl | app/util/common.py:61-64 | a custom emoji's URL names its id, `.gif` exactly when animated |
| Common.TwemojiCode | app/util/common.py:66-67 | the twemoji code is lower-case hexadecimal and its value is the first character's code point |
| Common.WalkCollection | app/util/common.py:70-79 | the walk yields no more objects than the collection has attributes |
| Common.WalkCollectionMembers | app/util/common.py:70-79 | an object is yielded exactly when a public (not `_`-prefixed) attribute holds it and it is an instance of the class |
| Common.GetByKeySpec | app/util/common.py:82-89 | `None` exactly when no public attribute has the key; otherwise the value of the first public attribute with it |
| Common.GetByKeyAt | app/util/common.py:82-89 | the lookup stops at the first public attribute whose key matches |
| Common.QueryCollection | app/util/common.py:92-111 | the single pass with its queue returns what the query function says: the first exact case-insensitive match, else the first queued candidate, else `None` |
| Common.QueryPrefersExact | app/util/common.py:100-101 | an exact case-insensitive name match is returned even when candidates were queued before it |
| Common.QueryResultSound | app/util/common.py:92-111 | a result is always from the collection, and `None` comes exactly when nothing matches exactly and nothing is a candidate (substring of three or more characters, or similar) |
| Pagination.PySlice | app/util/pagination.py:160-161 | a slice within bounds is the plain subsequence, and no slice is longer than the list |
| Pagination.NewFormatter | app/util/pagination.py:151-154 | a formatter is built exactly when the page size is positive, and keeps the entries and the size |
| Pagination.GetPage | app/util/pagination.py:156-161 | with one entry to a page the page exists exactly for Python indices in range, and is that entry; with more, the page is a slice of at most `per_page` entries |
| Pagination.SliceAtMost | app/util/pagination.py:160-161 | a page's slice never holds more than `per_page` entries |
| Pagination.SliceAt | app/util/pagination.py:160-161 | entry `j` of the slice from a non-negative start is the entry `start + j` of the list |
| Pagination.MaxPages | app/util/pagination.py:163-166 | there is always at least one page; one for an empty list; otherwise the fewest pages of `per_page` that hold every entry |
| Pagination.PagesUpToPrefix | app/util/pagination.py:156-166 | the first `k` pages, in order, are the first `k * per_page` entries (or all of them) |
| Pagination.PagesCoverEntries | app/util/pagination.py:156-166 | the pages `0 .. max_pages - 1` put together are exactly the entries, in order: nothing is lost or repeated |
| Pagination.FullPages | app/util/pagination.py:156-166 | every page before the last one is full |
| Pagination.OneEntryPerPage | app/util/pagination.py:156-166 | with one entry to a page there is one page per entry, and page `i` is entry `i` |
| Pagination.MakeButton | app/util/pagination.py:25-34 | a button leads to 1-based page `page + 1`; it is enabled exactly when that page exists and is not the current one; only an enabled button has a label, and the label reads back as its page number |
| Pagination.NavButtons | app/util/pagination.py:88-96 | the view has four page buttons: first, previous, next and last |
| Pagination.NavButtonsAtEnds | app/util/pagination.py:88-96 | on the first page, first and previous are disabled; on the last page, next and last; with one page, all four |
| Pagination.Paginator.constructor | app/util/pagination.py:105-117 | keeps the formatter and starts at the given page |
| Pagination.Paginator.Press | app/util/pagination.py:36-37 | clicking an enabled button moves to a different page, and that page exists |
| Pagination.Paginator.Jump | app/util/pagination.py:71-79 | a reply that is not a number gets "Invalid page."; a number outside `1 .. max_pages` gets the range message; both leave the page alone; otherwise the page becomes that number less one, and it exists |
| Pagination.Paginator.Start | app/util/pagination.py:128-144 | an explicit page replaces the current one; the current page is sent first; the navigation view goes along exactly when there is more than one page |
| Items.DefaultSell | app/data/items.py:44-45 | the default selling price is `price / 2.7` rounded, so within one half of it |
| Items.NewItem | app/data/items.py:40-48 | construction keeps key, name and price; a falsy `singular` becomes "an" before a vowel and "a" otherwise; a falsy `sell` becomes the rounded `price / 2.7`; a falsy `plural` becomes the name plus "s"; no callbacks are registered |
| Items.PostInitIdempotent | app/data/items.py:40-48 | the filled-in article and plural are never empty, so running the defaults again on a built item gives the same item |
| Items.ToUse | app/data/items.py:83-85 | registering a usage callback makes the item usable and changes nothing else |
| Items.ToRemove | app/data/items.py:87-89 | registering a removal callback makes the item removable and changes nothing else |
| Items.MiddleBold | app/data/items.py:72-74 | the bold middle part is `<emoji> **<name>**`, and the strip removes the separating space when the emoji is empty |
| Items.SentenceChunkBold | app/data/items.py:71-77 | the bold chunk reads `<article> <emoji> **<name>**` for a quantity of one and `<count> <emoji> **<plural>**` for any other (the specification of `Items.SentenceChunk`) |
| Items.DisplayNameShape | app/data/items.py:79-81 | the display name is `<emoji> <name>`, or `<emoji> **<name>**` when bold (the specification of `Items.DisplayName`) |
| Items.ItemByKey | app/util/common.py:82-89 | an item found by key has that key |
| Items.ItemByOwnKey | app/util/common.py:82-89 | in a catalog with distinct keys, looking up an item's own key finds that item |
| Recipes.TableWellFormed | app/data/recipes.py:16-70 | every recipe has a positive price, at least one ingredient, positive quantities over distinct items, exactly one unit of one result whose description is the recipe's, and sits under a public attribute named by its key |
| Recipes.TableKeysDistinct | app/data/recipes.py:16-70 | the four recipes have four distinct keys |
| Recipes.RecipeByKeySpec | app/data/recipes.py:16-70 | looking up by key finds a recipe exactly when one of the table's recipes has that key, and what it finds is that well-formed recipe |
| Profit.CapitalizeFirst | app/extensions/profit.py:137-142 | the length is kept; an empty string stays empty; otherwise the first character is no longer a lower-case letter and the rest is unchanged, so a string that already starts with no lower-case letter comes back as it was |
| Profit.CapitalizeFirstIdempotent | app/extensions/profit.py:137-142 | capitalising twice is capitalising once |
| Profit.Step | app/extensions/profit.py:586-589 | the streak goes up by one when it continues and is set to zero otherwise; no other column changes |
| Profit.Claim | app/extensions/profit.py:575-635 | the streak continues exactly when there was a previous expiry no more than the window ago; the wallet then gains the base plus the bonus for the new streak, which is returned with the bonus and the claim message |
| Profit.PayoutGrows | app/extensions/profit.py:586-592 | a non-negative streak stays non-negative, the payout is never below the base, and each continued step adds exactly the per-step bonus |
| Profit.RewardAmounts | app/extensions/profit.py:586-592 | the daily payout is 5000 plus 250 per step with a one-day window; the weekly one is 20000 plus 2000 per step with a two-day window |
| Profit.RobRefusal | app/extensions/profit.py:643-661 | a robbery goes ahead exactly when the victim is someone else, not a bot, and both wallets hold at least 500; robbing oneself gets its own message first |
| Profit.SuccessChance | app/extensions/profit.py:670 | the chance is 50 plus the robber's points minus the victim's defence, or 2 when that is lower |
| Profit.DeathChance | app/extensions/profit.py:744 | the death chance is never negative |
| Profit.Fine | app/extensions/profit.py:685 | every fine is at least 500 |
| Profit.FineWithinWallet | app/extensions/profit.py:684-685 | a robber with at least 500 pays a fine between 500 and the wallet |
| Profit.PayoutShare | app/extensions/profit.py:747-749 | the share taken is at most the whole wallet, and with non-negative points at least the drawn share |
| Profit.LootWithinWallet | app/extensions/profit.py:747-750 | a successful rob takes between nothing and the victim's whole wallet |
| Profit.RobResultBounded | app/extensions/profit.py:683-782 | whatever a confirmed robbery between two users with 500 each comes to, a fine lies between 500 and the robber's wallet and a payout between zero and the victim's wallet; an active padlock always ends in the padlock fine (the specification of `Profit.RobResult`) |
| Profit.Penalize | app/extensions/profit.py:693 | the wallet goes down by the fine and nothing else changes |
| Profit.MoveCoins | app/extensions/profit.py:751-752 | the amount leaves one wallet and reaches the other, and the two wallets keep their sum |
| Profit.Bonus | app/extensions/profit.py:664-665 | the two bonuses move only the bank space and the experience |
| Profit.Attempt | app/extensions/profit.py:683-782 | the ending is the one `RobResult` gives; unless the robber is shot, the robber's wallet moves by that ending's amount and nothing else of theirs (inventory, notifications) changes; a shot robber dies as `make_dead` says (a lifesaver used, or the wallet emptied and the chosen stack lost) and gets its `DeathNote`; only a theft or the police fine changes the victim's wallet, by the opposite amount; the padlock is switched off exactly by the padlock fine |
| Profit.Collect | app/extensions/profit.py:683-781 | a fine is taken from the robber, and goes to the victim only for the police fine; a theft moves the payout from victim to robber; only the padlock fine switches the padlock off |
| Profit.Proceed | app/extensions/profit.py:663-782 | the bonuses are always drawn; without confirmation nothing else happens; with it the robbery ends as `Attempt` says, the death of a shot robber (row, inventory and `DeathNote`) applied on top of the bonuses; notifications change only on death |
| Profit.Rob | app/extensions/profit.py:641-782 | a refusal changes nothing for either user, notifications included; otherwise the robbery goes as `Proceed` says, a shot robber dying as `make_dead` says with its `DeathNote`; the robber's inventory and notifications change only when shot |
| Profit.RobbingKeypad.constructor | app/extensions/profit.py:791-812 | a new keypad has nothing entered and is neither caught nor stopped |
| Profit.RobbingKeypad.Clear | app/extensions/profit.py:841-848 | anyone but the robber is told "nope" and nothing changes; the robber empties the entry |
| Profit.RobbingKeypad.Submit | app/extensions/profit.py:850-855 | anyone but the robber is told "nope" and nothing changes; the robber stops the keypad |
| Profit.RobbingKeypad.Catch | app/extensions/profit.py:857-863 | anyone but the victim is turned away and nothing changes; the victim catches the robber and stops the keypad |
| Profit.Tally | app/extensions/profit.py:526-527 | each fish is counted as often as it was drawn, the empty draws are left out, and there are never more fish than draws |
| Profit.TallyAtMostFive | app/extensions/profit.py:526-527 | five draws tally at most five fish, and exactly the fish that were drawn |
| Profit.Land | app/extensions/profit.py:564-566 | after the catch loop each fish's count has grown by its tally, and no other count has moved |
| Profit.UseBait | app/extensions/profit.py:520-524 | a bait is used up exactly when one is held, and then exactly one |
| Profit.Snap | app/extensions/profit.py:552-562 | the pole is lost first; a death roll below 0.15 then kills the fisher as `make_dead` says, on the inventory without the pole, adding the `DeathNote` for "a fish biting your head off"; otherwise the pole snaps with its message and nothing else changes, notifications included |
| Profit.Reel | app/extensions/profit.py:536-566 | the pole is lost exactly when a rare fish is caught and the prompt was not typed back; a death then follows `make_dead` on the inventory without the pole, with its `DeathNote`; otherwise every tallied fish is added; the record's columns and notifications change only when the fisher dies |
| Profit.Fish | app/extensions/profit.py:508-573 | each of the five draws is an entry of the fish tables; without a pole the fisher is told so and nothing changes; otherwise a bait is used if held; an empty tally catches nothing; a heavy catch not wound up loses the pole and may kill the fisher as `Reel` says; otherwise every tallied fish is added; columns and notifications change only on death |
| Profit.BaitRaisesOdds | app/extensions/profit.py:457-487 | both tables give every outcome a positive weight, the bait table never a smaller one, and every fish past the sardine a strictly larger one |
| Casino.Face | app/extensions/casino.py:27 | Python list indexing: a valid index gives its face, and negative indices count from the end |
| Casino.FormatRoll | app/extensions/casino.py:22-27 | a roll that is not two dice fails the assertion; two dice show their two faces separated by a space |
| Casino.JudgeSwap | app/extensions/casino.py:54-71 | the player wins exactly with the higher sum, ties exactly with the same sum, and loses exactly with the lower; swapping the rolls swaps a win for a loss (the specification of `Casino.Judge`) |
| Casino.WinningsBounds | app/extensions/casino.py:55-56 | with a multiplier between 0.55 and 0.95, a win pays at least half the bet and never more than the bet |
| Casino.RollBonuses | app/extensions/casino.py:40-42 | the two bonuses move only the experience and the bank space |
| Casino.Roll | app/extensions/casino.py:33-84 | a win adds the rounded winnings (between one coin and the bet) to the wallet, a tie changes only the bonuses, a loss takes exactly the bet; a bet the converter accepted never leaves the wallet negative |
| Stats.TransfersKeepTotal | app/extensions/stats.py:60 | moving coins between wallet and bank in either direction leaves the balance card's total line as it was |
| Stats.Eligible | app/extensions/stats.py:79-84 | the leaderboard keeps exactly the cached records of guild members with a non-zero wallet |
| Stats.InsertSpec | app/extensions/stats.py:79-87 | inserting into a richest-first list keeps it richest first and adds exactly that record (the specification of `Stats.Insert`) |
| Stats.SortByWalletSpec | app/extensions/stats.py:79-87 | the sorted records are richest first and are exactly the records given (the specification of `Stats.SortByWallet`) |
| Stats.SortByWalletStable | app/extensions/stats.py:79-87 | the sort is stable: for every wallet value, the records with it keep the order they had in the cache |
| Stats.InsertStable | app/extensions/stats.py:79-87 | inserting a record puts it after every record with the same wallet |
| Stats.Leaderboard | app/extensions/stats.py:77-92 | the "I don't see anyone" message comes exactly when no record qualifies; otherwise a paginator of ten per page over exactly the qualifying records, richest first, in the order of the stable `SortByWallet` (ties keep their cache order) |
| Stats.RankLabelsDistinct | app/extensions/stats.py:22-31 | no two places on the leaderboard share a label |
| Stats.FormatPage | app/extensions/stats.py:19-33 | a page has one line per entry, and line `j` is labelled with place `page * 10 + j` |
| Stats.PageRanks | app/extensions/stats.py:19-33 | line `j` of page `p` shows entry `10 * p + j` of the whole leaderboard, with that place's label |
| Models.FoldSingle | app/core/models.py:92-98 | a truthy single attachment given with a list is appended to the list and removed; a list that is not a list fails; in every other case the arguments pass unchanged |
| Models.CleanPrefix | app/core/models.py:33-38 | with no prefix, the cleaned prefix is empty |
| Models.NoMentionWithout | app/core/models.py:38 | a prefix without `<` contains no mention to replace |
| Models.ReplaceWhole | app/core/models.py:38 | replacing a whole string that is exactly the pattern gives the replacement |
| Models.CleanPrefixMentions | app/core/models.py:33-38 | both mention forms of the bot become `@` and its name (for a name without `<`), and a prefix without `<` is left as it is |
| Models.Context.constructor | app/core/models.py:20-22 | a new context has sent no message yet |
| Models.Context.Send | app/core/models.py:91-108 | the attachments are folded (an error changes nothing); with `edit` set and an earlier message, that message is edited without files or reply reference; otherwise a new message is sent and becomes the one remembered; `edit` never reaches the send |
| Models.EmbedJoinsList | app/core/models.py:92-94 | a single embed given with a list of embeds ends up last in that list, and the single one is removed |
| Models.LiteralNameSplits | app/core/models.py:151-152 | a literal's shown name splits on `|` back into its values, when no value shows a `|` |
| Models.TokenOf | app/core/models.py:153-217 | every token carries a seven-character colour code and at least two visible characters |
| Models.Coloured | app/core/models.py:159-211 | one coloured token per parameter, in order |
| Models.Shown | app/core/models.py:159-211 | one visible token per parameter, in order |
| Models.FirstNamed | app/core/models.py:164-217 | the position of the first parameter shown under the name `until`; none before it has that name |
| Models.Piece | app/core/models.py:136-217 | the branch for one parameter gives its token, the name it is shown under, a caret step of its visible width plus the space, and a caret size of its visible width |
| Models.Advance | app/core/models.py:164-217 | before `until` is met the offset grows by the token and its space; at the first match the width is set to the token's; after it neither changes |
| Models.AnsiSignatureUntil | app/core/models.py:126-219 | the signature is the coloured tokens joined by spaces; `count` is the visible width of everything before the first parameter shown as `until`, and `length` is that parameter's visible width (zero when there is none); no parameters give an empty signature |
| Models.AnsiSignature | app/core/models.py:121-122 | the whole signature is the coloured tokens joined by spaces |
| Models.WidthJoined | app/core/models.py:219 | tokens with a space after each are one character wider than the tokens joined by spaces |
| Models.JoinStarts | app/core/models.py:219 | the joined tokens start with the first token |
| Models.CaretMarksToken | app/core/models.py:126-219 | in the visible signature, the `length` characters from `count` on are exactly the token of the parameter shown as `until`, so a caret line drawn from them points at it |
| Helpers.Append | app/core/helpers.py:107-111 | appending to a missing key raises KeyError and to a non-list fails; otherwise the value is added at the end of that list and nothing else changes |
| Helpers.ProcessParts | app/core/helpers.py:79-124 | the loop over the parts computes the fold of the payload |
| Helpers.FoldStopsAtError | app/core/helpers.py:92-124 | once a part raises, the parts after it change nothing (the specification of `Helpers.Fold`) |
| Helpers.StopsAt | app/core/helpers.py:99-100 | a payload whose prefix up to a part raises ends with that error |
| Helpers.FoldGathersAttachments | app/core/helpers.py:79-111 | without `dict` parts and `BAD_ARGUMENT`, the fold succeeds and `embeds` and `files` hold exactly the payload's embeds and files, in order (with the other two `FoldGathers` rows, the specification of `Helpers.Step` part by part) |
| Helpers.FoldGathersContent | app/core/helpers.py:94-124 | without `dict` parts and `BAD_ARGUMENT`, the content is the last text part (absent when there is none), and the message replies to the invoking one exactly when `REPLY` was given (with the other two `FoldGathers` rows, the specification of `Helpers.Step` part by part) |
| Helpers.FoldGathersFlags | app/core/helpers.py:88-121 | without `dict` parts and `BAD_ARGUMENT`, the message edits exactly when `EDIT` was given, may carry the extra line exactly unless `NO_EXTRA` was given, and goes to the last paginator given (with the other two `FoldGathers` rows, the specification of `Helpers.Step` part by part) |
| Helpers.BadArgumentRaises | app/core/helpers.py:99-100 | `BAD_ARGUMENT` raises with the content gathered before it, or a KeyError when there is none, whatever follows it |
| Helpers.GroupedNoSpace | app/core/helpers.py:128-131 | a `{:,}` count contains no whitespace |
| Helpers.TakeWordBeforeSpace | app/core/helpers.py:128-131 | a word followed by a space is read back as that word |
| Helpers.WordBeforeSpace | app/core/helpers.py:128-131 | two lines with the same head that differ in their first word after it differ in that word |
| Helpers.NoticeShowsCount | app/core/helpers.py:128-131 | different unread counts give different notification lines |
| Helpers.NoticeGrammar | app/core/helpers.py:128-131 | the line says "notifications" exactly when the count is not one |
| Helpers.CleanInteraction | app/core/helpers.py:45-50 | the reply reference and the files are removed and every other argument is kept |
| Helpers.ProcessMessage | app/core/helpers.py:74-146 | no payload sends nothing; a failing fold raises before anything is sent; otherwise the notification line becomes the content exactly when `Notifies` holds, and the message goes to the paginator (without reference or files), else to the interaction, else to the channel |
| Helpers.NoticeOnce | app/core/helpers.py:126-131 | once the notification line is the content, the message no longer qualifies for it, so it is added at most once; the other keywords are untouched |
| Helpers.ResolveCommandKwargs | app/core/helpers.py:166-199 | `alias` and `aliases` together are refused; otherwise the class is always passed, each other argument is passed exactly when given, and a single alias becomes a one-element tuple |

## Left out

- SQL is not modelled: the pools, queries, migrations and `connection=` grouping in `app/database/__init__.py`. The store is in memory, and a fetch takes the stored rows as a parameter.
- Discord transport is not modelled: embeds, views, button layout, message send, edit and delete, interaction responses, `wait_for` and the bot lifecycle. A click, a typed reply or a timeout is a parameter (`None` for a reply that never came, `TimedOut` for the keypad).
- Locks and cooldowns are not modelled: `DropView._lock`, `input_lock`, `transaction_locks`, the cooldown decorators and concurrency limits. A daily or weekly claim takes the previous cooldown expiry and the current time as parameters.
- Randomness is not modelled: every `random` draw (bonuses, fines, payouts, dice, multipliers, fish, the keypad code, the item lost on death) is a parameter, constrained to the range the source draws from. A fish draw may be any outcome of the fish tables; the tables' weights are stated (`Profit.BaitRaisesOdds`), but how often each outcome comes up is not.
- Profit.Claim, Profit.Attempt, Transactions.RecipeView, Transactions.Craft: `UserRecord` (app/database/__init__.py:198-361) defines no `discovered_recipes`, `padlock_active`, `daily_streak` or `weekly_streak` property, no `append` and no `__getattr__`. So the reads at app/extensions/transactions.py:133 and 652-654 and at app/extensions/profit.py:591, 622 and 683 raise `AttributeError` as written. The model reads and writes those columns the way the `wallet` and `bank` properties do.
- Pagination.Paginator.Jump: `int(msg.content)` is read as `Text.ParseInt` of the stripped reply, that is ASCII digits with an optional sign. Python's `int` also accepts underscores between digits and non-ASCII decimal digits. Such replies get "Invalid page." in the model.
- Converters.ParseAmount, Converters.ReadAmount: follow the corrected `get_number`, so `"5b"` is five billion. As written, `get_amount` answers NotAnInteger for such an argument (see Findings); `Converters.ReadAmountAsWritten` is that reading, and `Converters.AmountAsWrittenAgrees` shows the two differ only there. Every command in the model uses the corrected reading.
- Floating point: floats are exact reals, so binary rounding and `float()` overflow are not captured. Python's `round` is modelled with ties to even.
- Converters.ParseFloat: reads only the integral numerals of Python's `float()`, that is, surrounding whitespace, an optional sign and decimal digits. A numeral with a decimal point or exponent (`"1.5k"`), `inf`, `nan` and underscores are read as a `ValueError` in this model. So `get_number`, and the percentages and fractions of `get_amount`, are modelled exactly only on whole-number numerals.
- Text.Lower, Text.Upper: map ASCII letters only. Python's Unicode case mapping is not modelled.
- Discord converters (`ItemAndQuantityConverter`, `BankTransaction`, `DropAmount`, `CasinoBet`): a command method takes the converted value under a precondition that says the converter produced it. Lemmas (`Transactions.ConvertItemSound`, `Transactions.ConvertEntitySound`, `Transactions.BankTransactionSound`) prove the converters meet those preconditions.
- `CaseInsensitiveMemberConverter` (member lookup) is not modelled. Members arrive as user ids.
- Item catalog: only `lifesaver` is visible among the source's `Items`, so the catalog is a parameter. The `dir()` walk is modelled over an explicit sequence of attributes.
- Item usage and removal callbacks (app/data/items.py:91-104): their bodies are not shown, so only the `None` that `use` returns is modelled (see Findings).
- `Common.QueryCollection`: takes `SequenceMatcher` similarity as a given predicate.
- The `remove`, `shop`, `recipes` listing and `inventory` display commands are not modelled. They only render embeds.
- The keypad's digit buttons (`RobberyTrainingButton`, defined in app/data/skills.py) are not part of this model, so `entered` only ever changes through Clear. The source never compares `entered` with `code`, and the model does not compare them either.
- Transactions.DropView.Click: `claim` in the source replies "already claimed" and then carries on, so with overlapping clicks a later claimant could overwrite `winner`. The model takes clicks one at a time: the first accepted click stops the view, and no later click is delivered.
- `bank_ratio` and the percentage shown beside a fine are not modelled. They are float formatting only.
- `discord.utils.escape_markdown` is not modelled. Names on the leaderboard arrive already escaped.
- Helpers.ProcessMessage: every embed part is truthy. A `set` payload is given as a sequence in the order Python would iterate it. The `maybe_edit` fallback from edit to send and `_into_interaction_response` are not modelled.
- Pagination.Paginator.Start: the message and view that `start` sends are not modelled. Only the choice between a single page and a navigated view, and the page it shows, are modelled.
- Profit.Rob: the skill points for robbing and defence are parameters. The skills and their training live in app/data/skills.py, which is not part of this model.
- app/util/structures.py (`Timer`), app/util/types.py, app/extensions/misc.py, app/extensions/admin.py, app/extensions/slash.py and app/core/bot.py hold no economy logic and are not part of this model.

## Findings

| source | as written | input that shows it | evidently intended | confidence | as-written member | corrected member |
|---|---|---|---|---|---|---|
| app/util/converters.py:27-28 | the `b` branch of `get_number` strips a trailing `k` rather than `b`, so `float()` sees the `b` and raises `ValueError` | `"5b"` | `"5b"` parses as 5,000,000,000 | high (not executed) | Converters.GetNumberAsWrittenRejectsBillions | Converters.GetNumberBillions |
| app/util/converters.py:83-87 | `get_amount` hands a plain argument to `get_number` as written and turns its `ValueError` into NotAnInteger, so every `b` amount (withdraw, deposit, bets, crafting) is refused | `"5b"` with at least five billion available | `"5b"` is an amount of 5,000,000,000 | high (not executed) | Converters.AmountAsWrittenRejectsBillions | Converters.FiveBillionAmount |
| app/data/items.py:91-99, app/extensions/transactions.py:472-474 | `Item.use` returns `None`, so `quantity > 0` in `use` raises `TypeError`, and the used items are never removed from the inventory | using any usable item, for example one lifesaver | the usage callback's count is compared and that many items are disposed of | medium (not executed) | Transactions.UseAsWritten | Transactions.Use |
