# INBENTOREE core, modelled in Dafny

INBENTOREE is a Razor Pages web application for small Filipino sari-sari
stores. Its data lives in MongoDB. This project models the business logic of
its four main pages, with every MongoDB collection held as an in-memory
sequence of records (a field of the `Domain.Database` class). Each page
handler is one sequential step over that database.

- **Dash** (`dash.dfy`) is the seller dashboard and its catalog position
  manager:
  - appending an item after the store's highest position;
  - the edit that keeps position, creation time and store;
  - the two-item swap, reindexing to 1..N in (Position, Id) order;
  - single and mass delete;
  - AI seeding of the inventory;
  - clean-up of the "categorize" reply.
- **Shop** (`shop.dfy`) is the storefront:
  - the session cart, with clamping and merging of lines;
  - the cart as displayed, with its grand total;
  - checkout, which decrements stock without a sufficiency check and inserts
    one order;
  - the assistant chat (fence stripping and the hand-off decision);
  - the key rotation that stops at the first key that answers.
- **Reports** (`reports.dfy`) is the sales report:
  - revenue, order count and profit;
  - the low-stock and slow-moving lists, and the twenty most recent orders;
  - the seven-day sales buckets;
  - the AI forecast with its fallback;
  - the generator of 31 days of demonstration orders.
- **Index** (`index.dfy`) is the sign-in page:
  - password login and registration;
  - e-mail verification by a six-digit code that expires after fifteen
    minutes, and resending that code;
  - Google sign-in, and the role-based redirect.

Supporting modules:

- `domain.dfy` holds the shared records and the database.
- `sorting.dfy` holds a stable insertion sort by a total preorder (MongoDB `SortBy`,
  LINQ `OrderBy`), `Filter`, `Take` and sums.
- `text.dfy` holds the .NET string operations the handlers use: `Trim`,
  `Replace`, `Split`, `IndexOf`, `StartsWith` and number formatting.

Everything the handlers get from outside becomes an input of the model:

- the store lookup by owner (None when the user has no store);
- the clock (one integer time in milliseconds per handler);
- the random draws, with the ranges of the `Random` calls as preconditions;
- the ids the database assigns, with freshness preconditions;
- the results of the HTTP calls to the language model;
- the JSON deserialiser;
- BCrypt hashing and verification;
- the outcome of sending mail.

Money (`decimal`) is an exact real number. An integer count of cents would not
do: the seed fallback `Price * 0.8` is not a whole number of cents in general,
while `decimal` keeps it exactly.

## Model

| member | source | states |
|---|---|---|
| Domain.FirstIndex | WebApplication11/Pages/Dash.cshtml.cs:262 | Find(p).FirstOrDefault() as a position: the first index satisfying p, None exactly when no element does |
| Domain.IndexOfId | WebApplication11/Pages/Dash.cshtml.cs:262 | the first document with the id, None exactly when no document has it |
| Domain.IndexOfIdIsFirstIndex | WebApplication11/Pages/Dash.cshtml.cs:262 | the id lookup is the generic first-match search on the id |
| Domain.StoreItems | WebApplication11/Pages/Dash.cshtml.cs:68 | exactly the items of the store, never more than the collection, unique ids kept |
| Domain.StoreOrders | WebApplication11/Pages/Reports.cshtml.cs:57 | Find(StoreId == storeId) on orders: exactly the orders of the store, never more than the collection |
| Domain.SumTotalsAppend | WebApplication11/Pages/Dash.cshtml.cs:365 | the Quantity * Price total of two row lists together is the sum of their totals |
| Dash.SortedStoreFacts | WebApplication11/Pages/Dash.cshtml.cs:287 | the (Position, Id) listing is sorted, holds exactly the store's items and keeps ids unique |
| Dash.MaxStorePosition | WebApplication11/Pages/Dash.cshtml.cs:254 | None iff the store has no item; otherwise a position some store item has, and no store item has a higher one |
| Dash.Appended | WebApplication11/Pages/Dash.cshtml.cs:253-255 | the new item gets (highest store position, or 0) + 1 and the store's id; the posted fields are kept; the uploaded logo is used only when a non-empty file came |
| Dash.Add | WebApplication11/Pages/Dash.cshtml.cs:248-256 | no store: nothing changes; otherwise exactly the appended item is added at the end; ids stay unique |
| Dash.AppendedIsAfterStore | WebApplication11/Pages/Dash.cshtml.cs:254-255 | the appended item is strictly after every item of its store, and is at position 1 in an empty store |
| Dash.AppendedIsLast | WebApplication11/Pages/Dash.cshtml.cs:254-255 | the appended item is listed last in the store's (Position, Id) order |
| Dash.SortedLast | WebApplication11/Pages/Dash.cshtml.cs:287 | in a (Position, Id) sorted list, an element above all others by position is the last one |
| Dash.Replacement | WebApplication11/Pages/Dash.cshtml.cs:264-266 | the replacement keeps the existing Position, CreatedAt and StoreId, takes the posted fields, and keeps the old logo unless a non-empty file is posted |
| Dash.Edit | WebApplication11/Pages/Dash.cshtml.cs:258-267 | an empty id redirects and changes nothing; an id that is not 24 hex digits ends in the uncaught FormatException and changes nothing; an unknown id gives NotFound and changes nothing; otherwise only the found document is replaced |
| Dash.EditKeepsLayout | WebApplication11/Pages/Dash.cshtml.cs:264 | after an edit every document keeps its id, position and store |
| Dash.Resolve | WebApplication11/Pages/Dash.cshtml.cs:273 | the In(Id, ids) filter returns exactly the documents whose id is listed, unique when ids are |
| Dash.Swap | WebApplication11/Pages/Dash.cshtml.cs:269-281 | two ids of which one is not an ObjectId end in the uncaught FormatException, every other case redirects; the collection becomes the swapped collection |
| Dash.ResolveAtMostTwo | WebApplication11/Pages/Dash.cshtml.cs:273-274 | two ids resolve at most two documents, and the same id twice resolves at most one |
| Dash.SwapPair | WebApplication11/Pages/Dash.cshtml.cs:273-275 | the two documents an accepted swap resolves carry the two posted ids |
| Dash.SwapAcceptedOnlyIf | WebApplication11/Pages/Dash.cshtml.cs:271-274 | a swap goes ahead only when both ids are ObjectIds, they differ and both exist |
| Dash.SwapAcceptedIf | WebApplication11/Pages/Dash.cshtml.cs:271-274 | two distinct, well-formed, existing ids make the swap go ahead |
| Dash.SwapAcceptedIff | WebApplication11/Pages/Dash.cshtml.cs:271-274 | the swap goes ahead exactly when two ids are given, both are ObjectIds, they differ, and both exist |
| Dash.ApplyWritesEffect | WebApplication11/Pages/Dash.cshtml.cs:276-280 | a bulk write gives each document the position of the last write naming it and changes nothing else |
| Dash.LastWriteAppend | WebApplication11/Pages/Dash.cshtml.cs:276-280 | one more write either names the id and wins, or leaves the id's last write as it was |
| Dash.SwapEffect | WebApplication11/Pages/Dash.cshtml.cs:271-280 | a rejected swap changes nothing; an accepted one exchanges the two positions and changes no other document or field |
| Dash.ExchangeTwice | WebApplication11/Pages/Dash.cshtml.cs:275-280 | exchanging two documents' positions back restores the collection |
| Dash.SwapKeepsIds | WebApplication11/Pages/Dash.cshtml.cs:275-280 | a swap leaves every id in its place and keeps ids unique |
| Dash.SwapInvolution | WebApplication11/Pages/Dash.cshtml.cs:269-281 | swapping the same pair twice restores the collection |
| Dash.SwapSameIdTwice | WebApplication11/Pages/Dash.cshtml.cs:271-274 | the same id given twice changes nothing |
| Dash.ReIndex | WebApplication11/Pages/Dash.cshtml.cs:282-291 | without a store nothing is written; otherwise the collection becomes the reindexed collection |
| Dash.ReindexPlanOnlyChanges | WebApplication11/Pages/Dash.cshtml.cs:289 | every write names a listed item that is not yet at its rank |
| Dash.ReindexPlanLookup | WebApplication11/Pages/Dash.cshtml.cs:289 | the k-th listed item is written to k+1 when elsewhere; no write names an unlisted id |
| Dash.ReindexRanks | WebApplication11/Pages/Dash.cshtml.cs:287-290 | each item of the store moves to its rank in (Position, Id) order counting from 1; other documents and fields are unchanged |
| Dash.ReindexPreservesOrder | WebApplication11/Pages/Dash.cshtml.cs:287-289 | an item listed before another ends at a lower position |
| Dash.ReindexShape | WebApplication11/Pages/Dash.cshtml.cs:287-290 | reindexing keeps ids, stores, unique ids and the store's size |
| Dash.DensePositions | WebApplication11/Pages/Dash.cshtml.cs:289 | strictly increasing positions in 1..N on N items are exactly 1..N |
| Dash.ReindexDense | WebApplication11/Pages/Dash.cshtml.cs:287-289 | after a reindex the store's items listed again sit at 1..N |
| Dash.ReindexIdempotent | WebApplication11/Pages/Dash.cshtml.cs:289-290 | a second reindex plans no write and changes nothing |
| Dash.DeleteOne | WebApplication11/Pages/Dash.cshtml.cs:301 | a present id removes one document, an absent id changes nothing |
| Dash.Delete | WebApplication11/Pages/Dash.cshtml.cs:298-302 | an empty id redirects and changes nothing; an id that is not an ObjectId ends in the uncaught FormatException and changes nothing; otherwise the first document with the id goes |
| Dash.DeleteRemovesExactly | WebApplication11/Pages/Dash.cshtml.cs:301 | after a single delete exactly the documents without that id remain |
| Dash.DeleteOneIsRemoveIds | WebApplication11/Pages/Dash.cshtml.cs:295-301 | over unique ids, deleting one id is deleting the list holding that id |
| Dash.RemoveIds | WebApplication11/Pages/Dash.cshtml.cs:295 | exactly the documents whose id is not listed remain, unchanged and in order; with no listed id nothing changes |
| Dash.MassDelete | WebApplication11/Pages/Dash.cshtml.cs:292-297 | empty input redirects and changes nothing; if any entry of the comma split (empty entries dropped) is not an ObjectId, the FormatException leaves everything as it was; otherwise exactly those ids are removed |
| Dash.MassDeleteRemovesListed | WebApplication11/Pages/Dash.cshtml.cs:295 | for ids joined with commas, the list read back is well formed exactly when the ids are, and exactly the documents with those ids are removed |
| Dash.ObjectIdsSplitBack | WebApplication11/Pages/Dash.cshtml.cs:295 | a list of ObjectIds joined with commas splits back into the same list |
| Dash.BracketedArray | WebApplication11/Pages/Dash.cshtml.cs:181-185 | None iff no '[' comes before a ']'; otherwise the text from the first '[' to the last ']' |
| Dash.SeedList | WebApplication11/Pages/Dash.cshtml.cs:191-194 | the parsed seeds when there are some, otherwise exactly the one sample seed |
| Dash.SeededItem | WebApplication11/Pages/Dash.cshtml.cs:198-208 | a null category becomes "General", a cost of 0 or less becomes Price * 0.8, and the store, position and time are set |
| Dash.SeededPositions | WebApplication11/Pages/Dash.cshtml.cs:173-209 | the k-th seeded item gets position count+k+1, where count is the number of the store's documents |
| Dash.BuildSeedItems | WebApplication11/Pages/Dash.cshtml.cs:196-209 | the loop builds one item per seed, in seed order |
| Dash.SeedInventory | WebApplication11/Pages/Dash.cshtml.cs:167-213 | no store: nothing changes; otherwise the seed batch is appended and ids stay unique |
| Dash.UniqueAfterSeed | WebApplication11/Pages/Dash.cshtml.cs:211 | inserting items under fresh distinct ids keeps ids unique |
| Dash.SeedFallback | WebApplication11/Pages/Dash.cshtml.cs:191-194 | without a key or a reply text exactly one "Sample Item" is inserted |
| Dash.GeminiText | WebApplication11/Pages/Dash.cshtml.cs:215-237 | a missing key gives the error text; otherwise the first candidate's text, or empty |
| Dash.CleanCategory | WebApplication11/Pages/Dash.cshtml.cs:102 | the result is the trimmed infix (only white space around it) of the reply with every '"' and then every '.' deleted; so no '"' or '.' remains, the ends are not white space, and only characters of the reply appear |
| Text.Trim | WebApplication11/Pages/Dash.cshtml.cs:102 | String.Trim: an infix of s with only white space cut from either end, no longer than s, whose ends are not white space |
| Text.ReplaceAll | WebApplication11/Pages/Shop.cshtml.cs:337 | String.Replace(pat, rep): a string without the pattern's first character is unchanged, and replacing by "" never lengthens the string |
| Text.IndexOf | WebApplication11/Pages/Dash.cshtml.cs:181 | String.IndexOf(c): -1 exactly when c does not occur; otherwise an index holding c with no c before it |
| Text.LastIndexOf | WebApplication11/Pages/Dash.cshtml.cs:182 | String.LastIndexOf(c): -1 exactly when c does not occur; otherwise an index holding c with no c after it |
| Text.Split | WebApplication11/Pages/Dash.cshtml.cs:295 | Split(sep, RemoveEmptyEntries): non-empty pieces without the separator that put together give the string with its separators deleted |
| Text.SplitJoin | WebApplication11/Pages/Dash.cshtml.cs:295 | non-empty pieces without the separator, joined by it, split back into the same pieces |
| Text.NatToString | WebApplication11/Pages/Shop.cshtml.cs:270 | Int32.ToString of a non-negative number: a non-empty string of digits with no leading zero |
| Text.ParseNatToString | WebApplication11/Pages/Shop.cshtml.cs:270 | reading the rendered digits back gives the number |
| Text.Before | WebApplication11/Pages/Index.cshtml.cs:137 | s.Split(c)[0]: the longest prefix of s without c, followed by c unless it is all of s |
| Text.DeleteChar | WebApplication11/Pages/Dash.cshtml.cs:102 | Replace(c, ""): c no longer occurs, every other character keeps its count, and a string without c is unchanged |
| Text.DeleteCharConcat | WebApplication11/Pages/Dash.cshtml.cs:102 | deleting a character distributes over concatenation, so the other characters keep their order |
| Dash.InsightMessage | WebApplication11/Pages/Dash.cshtml.cs:101-104 | categorize mode cleans the reply; every other mode passes it through |
| Dash.CleanCategoryIdempotent | WebApplication11/Pages/Dash.cshtml.cs:102 | cleaning a cleaned reply changes nothing |
| Dash.StrLeTotal | WebApplication11/Pages/Dash.cshtml.cs:287 | the ordinal string order on ids is total |
| Dash.StrLeTrans | WebApplication11/Pages/Dash.cshtml.cs:287 | the ordinal string order is transitive |
| Dash.StrLeAntisymmetric | WebApplication11/Pages/Dash.cshtml.cs:287 | the ordinal string order is antisymmetric |
| Shop.Clamp | WebApplication11/Pages/Shop.cshtml.cs:211 | a quantity below 1 becomes 1, others are kept |
| Shop.LineIndex | WebApplication11/Pages/Shop.cshtml.cs:213 | the first line for the item, None exactly when there is none |
| Shop.AddToCart | WebApplication11/Pages/Shop.cshtml.cs:206-230 | the cart gains the clamped quantity for the item; the count returned is the sum of line quantities; a notification is added only for a store item |
| Shop.AddLineQuantities | WebApplication11/Pages/Shop.cshtml.cs:213-215 | the item's quantity grows by q and no other item's changes |
| Shop.AddLineShape | WebApplication11/Pages/Shop.cshtml.cs:213-229 | lines of other items are untouched, at most one line is added, and the count grows by q |
| Shop.AddLineOneLine | WebApplication11/Pages/Shop.cshtml.cs:213-215 | at most one line per item is kept |
| Shop.TotalQuantityUpdate | WebApplication11/Pages/Shop.cshtml.cs:214-229 | raising one line changes the count by the difference |
| Shop.CartNotice | WebApplication11/Pages/Shop.cshtml.cs:219-225 | a notice is due iff the id starts with neither "p" nor "m" and names an item with a store |
| Shop.Snapshot | WebApplication11/Pages/Shop.cshtml.cs:293-304 | a row takes name, price and (for real stores) cost from the live item and the quantity from the line |
| Shop.ResolvedLines | WebApplication11/Pages/Shop.cshtml.cs:299-307 | exactly the cart lines whose item exists |
| Shop.CartDetailsRows | WebApplication11/Pages/Shop.cshtml.cs:283-307 | one row per resolvable line, in cart order, each the snapshot of its item |
| Shop.LoadCartData | WebApplication11/Pages/Shop.cshtml.cs:280-310 | the rows are those of the session cart, the session is not changed, and the grand total is the sum of the rows' totals |
| Shop.GrandTotalIsCartValue | WebApplication11/Pages/Shop.cshtml.cs:309 | the grand total is the Quantity * Price value of the resolvable lines |
| Shop.Decrement | WebApplication11/Pages/Shop.cshtml.cs:254-258 | one line's decrement keeps the collection's length and changes no field but the quantities |
| Shop.Decremented | WebApplication11/Pages/Shop.cshtml.cs:250-262 | the decrements of every cart line keep the collection's length and change no field but the quantities |
| Shop.StockDecrement | WebApplication11/Pages/Shop.cshtml.cs:250-262 | each item loses exactly what the cart's lines take of it, with no sufficiency check, and no other field changes |
| Shop.StockMayGoNegative | WebApplication11/Pages/Shop.cshtml.cs:257 | one in stock with three ordered leaves -2 |
| Shop.DecrementStock | WebApplication11/Pages/Shop.cshtml.cs:250-262 | the loop leaves the decremented collection |
| Shop.NewOrder | WebApplication11/Pages/Shop.cshtml.cs:264-272 | the order holds the pre-decrement rows, their total, status "Pending", code "OR-" plus the number, and the user name or "Guest" |
| Shop.OrderCodeLength | WebApplication11/Pages/Shop.cshtml.cs:270 | a number from [1000, 9999) gives a seven-character order code |
| Shop.Checkout | WebApplication11/Pages/Shop.cshtml.cs:232-278 | an empty cart changes nothing; a mock store only clears the cart; otherwise stock is decremented, exactly one order is inserted, the cart is cleared and one order notice is added |
| Shop.FirstAnswer | WebApplication11/Pages/Shop.cshtml.cs:364-378 | the first key that answered; None iff every key failed |
| Shop.CallSariService | WebApplication11/Pages/Shop.cshtml.cs:357-380 | the text of the first answer ("{}" when none or null), after calling exactly the keys up to that one |
| Shop.LaterKeysIgnored | WebApplication11/Pages/Shop.cshtml.cs:364-379 | keys after the first that answers make no difference |
| Shop.FirstAnswerAt | WebApplication11/Pages/Shop.cshtml.cs:364-378 | a key that answers after only failures is the first answer |
| Shop.StripFences | WebApplication11/Pages/Shop.cshtml.cs:337 | the cleaned reply is never longer than the reply and has no white space at either end |
| Shop.StripFencesOfFenced | WebApplication11/Pages/Shop.cshtml.cs:337 | a fenced JSON block comes out as its trimmed body |
| Shop.StripFencesOfPlain | WebApplication11/Pages/Shop.cshtml.cs:337 | a reply without backquotes is only trimmed |
| Shop.Decide | WebApplication11/Pages/Shop.cshtml.cs:338-345 | a parse failure hands off with "Connecting you to the seller..."; a null keeps the apology; a parsed reply is used as is |
| Shop.AiChat | WebApplication11/Pages/Shop.cshtml.cs:332-355 | with hand-off exactly the guest's message, the reply half a second later and one chat notice are stored; without it nothing is |
| Shop.RecordHandoff | WebApplication11/Pages/Shop.cshtml.cs:347-353 | appends the two messages and the one notice, in that order |
| Sorting.SortBy | WebApplication11/Pages/Reports.cshtml.cs:58 | SortBy/SortByDescending: a permutation of the input, of the same length |
| Sorting.SortByStable | WebApplication11/Pages/Reports.cshtml.cs:67 | OrderBy is stable: the elements of any set of mutual ties come out in their input order |
| Sorting.TakeFilterIsFirstAccepted | WebApplication11/Pages/Reports.cshtml.cs:69 | Where(p).Take(n) is the first n accepted elements read off the sequence front to back |
| Sorting.TakeFilterFirst | WebApplication11/Pages/Reports.cshtml.cs:69 | over distinct elements, Where(p).Take(n) leaves out no accepted element that comes before one it holds |
| Sorting.SortBySorted | WebApplication11/Pages/Reports.cshtml.cs:58 | under a total, transitive "comes no later than" the sorted list is in that order |
| Sorting.Filter | WebApplication11/Pages/Reports.cshtml.cs:67 | Enumerable.Where: exactly the elements satisfying the predicate, each with its full count, and no others |
| Sorting.Take | WebApplication11/Pages/Reports.cshtml.cs:61 | Enumerable.Take(n): the first min(n, length) elements |
| Reports.RecentOrdersOfListing | WebApplication11/Pages/Reports.cshtml.cs:56-61 | from any newest-first permutation of the store's orders, the recent list holds min(20, n) of them, newest first, none left out newer than one listed |
| Reports.OrdersByDateFacts | WebApplication11/Pages/Reports.cshtml.cs:56-59 | the listing holds exactly the store's orders, as a permutation, newest first |
| Reports.RecentOrdersNewest | WebApplication11/Pages/Reports.cshtml.cs:56-61 | min(20, n) of the store's orders, newest first, none left out newer than one listed |
| Reports.RevenueOfStore | WebApplication11/Pages/Reports.cshtml.cs:63 | the revenue does not depend on the listing order |
| Reports.RevenueAfterOrder | WebApplication11/Pages/Reports.cshtml.cs:63-64 | one more order raises its store's revenue by its amount and count by one, and leaves other stores as they were |
| Reports.AllLines | WebApplication11/Pages/Reports.cshtml.cs:65 | the lines of all orders, exactly |
| Reports.ProfitByOrder | WebApplication11/Pages/Reports.cshtml.cs:65 | the profit over all lines is the sum of the orders' profits |
| Reports.ProfitIsMargin | WebApplication11/Pages/Reports.cshtml.cs:65 | for orders whose amount is their line total, profit is revenue less cost of goods |
| Reports.ProfitOfStore | WebApplication11/Pages/Reports.cshtml.cs:65 | the profit does not depend on the listing order |
| Reports.LowStockStable | WebApplication11/Pages/Reports.cshtml.cs:67 | low-stock items with the same quantity keep their catalog order, as the stable OrderBy leaves them |
| Reports.LowStockFacts | WebApplication11/Pages/Reports.cshtml.cs:67 | exactly the items with Quantity < 5, as often as in the catalog, fewest first |
| Reports.SoldNames | WebApplication11/Pages/Reports.cshtml.cs:68 | exactly the names on the order lines |
| Reports.SlowMovingFacts | WebApplication11/Pages/Reports.cshtml.cs:68-69 | the first five idle items, in catalog order: at most five, each with Quantity > 10 and never sold, fewer than five only when there are no others, and (ids unique) no idle item before a listed one left out |
| Reports.WeekDays | WebApplication11/Pages/Reports.cshtml.cs:71 | the seven consecutive days ending today |
| Reports.WindowStep | WebApplication11/Pages/Reports.cshtml.cs:77 | one more day adds that day's total |
| Reports.WindowCoversAll | WebApplication11/Pages/Reports.cshtml.cs:77 | a window holding every order's day has all the revenue |
| Reports.WeekChartRevenue | WebApplication11/Pages/Reports.cshtml.cs:71-79 | the seven-day chart adds up to the revenue of those seven days |
| Reports.WeekOfFacts | WebApplication11/Pages/Reports.cshtml.cs:71-79 | seven keys, one per day ending today, each the day's total; the chart adds up to the week's revenue |
| Reports.SevenDaySales | WebApplication11/Pages/Reports.cshtml.cs:71-82 | the loop builds the days, the map and the chart of the week ending today |
| Reports.ForecastError | WebApplication11/Pages/Reports.cshtml.cs:187-213 | which exception the forecast call ends in: an error status, no content, or a parse error |
| Reports.ForecastMissingKey | WebApplication11/Pages/Reports.cshtml.cs:158-161 | a missing key sets only the holiday note |
| Reports.ForecastAfterError | WebApplication11/Pages/Reports.cshtml.cs:215-221 | for any chart handed in, a failed call with the key set shows that chart, keeps the revenue, notes "AI Error: " and the message, and appends exactly one tip |
| Reports.ForecastFallbackOn | WebApplication11/Pages/Reports.cshtml.cs:215-221 | the fallback for the week ending on any given day: that week's chart and its revenue, the error note, one tip, revenue kept |
| Reports.ForecastFallback | WebApplication11/Pages/Reports.cshtml.cs:215-221 | on failure the chart is the past week's sales chart (so it sums to the week's revenue), the note is "AI Error: " and the message, exactly one tip is appended, and revenue is unchanged |
| Reports.ForecastSuccess | WebApplication11/Pages/Reports.cshtml.cs:196-208 | on success the forecast, its sum, the note and the tips are shown; a JSON null changes nothing |
| Reports.WeekChartSum | WebApplication11/Pages/Reports.cshtml.cs:77-82 | the chart of n consecutive days sums to their revenue |
| Reports.ReportPage.constructor | WebApplication11/Pages/Reports.cshtml.cs:32-47 | the page's initial figures, lists and default holiday text |
| Reports.ReportPage.GenerateAiForecast | WebApplication11/Pages/Reports.cshtml.cs:154-222 | the forecast fields become those of the forecast after the call |
| Reports.ReportPage.Load | WebApplication11/Pages/Reports.cshtml.cs:49-85 | without a store nothing changes; otherwise the figures, the week and the forecast of the store |
| Reports.ReportPage.Present | WebApplication11/Pages/Reports.cshtml.cs:56-84 | the figures, the week and the forecast for the given items and orders |
| Reports.ReportPage.SetFigures | WebApplication11/Pages/Reports.cshtml.cs:61-69 | the figures are those of the items and orders |
| Reports.ReportPage.ShowWeek | WebApplication11/Pages/Reports.cshtml.cs:71-82 | the week's labels, map and chart |
| Reports.ReportPage.ShowWeekAndForecast | WebApplication11/Pages/Reports.cshtml.cs:71-84 | the week, then the forecast over its chart |
| Reports.SeedPool | WebApplication11/Pages/Reports.cshtml.cs:92-99 | the store's items, or exactly the Starter Pack when it has none |
| Reports.DrawnLinesFacts | WebApplication11/Pages/Reports.cshtml.cs:117-127 | one line per draw, each a pool item at its price and cost with one or two units |
| Reports.DrawnOrderSeeded | WebApplication11/Pages/Reports.cshtml.cs:129-138 | every drawn order is a completed walk-in order with amount equal to its line total and a nine-character code |
| Reports.DayOrdersSeeded | WebApplication11/Pages/Reports.cshtml.cs:112-139 | every order of a day is well formed |
| Reports.DaysAgoWithin | WebApplication11/Pages/Reports.cshtml.cs:109 | 0 to 30 days ago lies within the last 30 days |
| Reports.HistorySeeded | WebApplication11/Pages/Reports.cshtml.cs:105-140 | every generated order is well formed |
| Reports.HistoryMargin | WebApplication11/Pages/Reports.cshtml.cs:129-138 | the generated history's profit is its revenue less its cost of goods |
| Reports.DrawLines | WebApplication11/Pages/Reports.cshtml.cs:117-127 | the inner loop builds the drawn lines |
| Reports.DrawDay | WebApplication11/Pages/Reports.cshtml.cs:112-139 | the middle loop builds the day's orders |
| Reports.DrawDate | WebApplication11/Pages/Reports.cshtml.cs:107-139 | a skipped day gives no orders, any other its drawn orders |
| Reports.DrawHistory | WebApplication11/Pages/Reports.cshtml.cs:105-140 | the outer loop builds the history of 31 days |
| Reports.SeedHistory | WebApplication11/Pages/Reports.cshtml.cs:87-144 | no store: nothing changes; otherwise a Starter Pack exactly when the store is empty, then the history appended |
| Reports.StarterOnly | WebApplication11/Pages/Reports.cshtml.cs:94-126 | for an empty store every generated line is a Starter Pack at 100 with cost 80 |
| Index.RedirectFor | WebApplication11/Pages/Index.cshtml.cs:190 | "/Shop" iff the role is "Customer", else "/Dash" |
| Index.FindByEmail | WebApplication11/Pages/Index.cshtml.cs:246 | the first user with the address, None exactly when there is none |
| Index.FindByLogin | WebApplication11/Pages/Index.cshtml.cs:162 | the first user whose name or address is the input, None exactly when there is none |
| Index.IndexOfUser | WebApplication11/Pages/Index.cshtml.cs:302 | the first user with the id, None exactly when there is none |
| Index.IndexOfUserFound | WebApplication11/Pages/Index.cshtml.cs:302 | with unique ids, an update by a found user's id touches that user |
| Index.UpdateOne | WebApplication11/Pages/Index.cshtml.cs:261-266 | only the user with the id changes, and only in the fields the update sets |
| Index.SetAndSendVerificationCode | WebApplication11/Pages/Index.cshtml.cs:293-308 | the user gets the drawn code as its token and an expiry fifteen minutes on, whether or not the mail goes out |
| Index.Decide | WebApplication11/Pages/Index.cshtml.cs:249-259 | already verified iff the user is verified; acceptance needs the stored token to be the code |
| Index.DrawnCodeHasSixDigits | WebApplication11/Pages/Index.cshtml.cs:296 | a drawn code is six digits, the length the form accepts |
| Index.IssueThenVerify | WebApplication11/Pages/Index.cshtml.cs:256-266 | the code just issued is accepted within fifteen minutes |
| Index.WrongCodeRejected | WebApplication11/Pages/Index.cshtml.cs:256-259 | any other string is rejected |
| Index.LateCodeRejected | WebApplication11/Pages/Index.cshtml.cs:256-259 | the right code is rejected after fifteen minutes |
| Index.ReissueRevokes | WebApplication11/Pages/Index.cshtml.cs:296-302 | a new code revokes the earlier one |
| Index.VerifiedIsFinal | WebApplication11/Pages/Index.cshtml.cs:249-266 | a verified user stays verified, with no token or expiry |
| Index.ExpiryTests | WebApplication11/Pages/Index.cshtml.cs:256 | an expiry the verify handler counts as passed also passes the login handler's resend test (line 172); the two tests differ exactly for a missing expiry |
| Index.PendingCodeKept | WebApplication11/Pages/Index.cshtml.cs:172 | logging in within fifteen minutes of a code sends no new one |
| Index.VerifyCode | WebApplication11/Pages/Index.cshtml.cs:241-271 | invalid form, unknown user, and bad or expired code fail with no change; a verified user succeeds with no change; success sets verified and clears token and expiry |
| Index.IdsKept | WebApplication11/Pages/Index.cshtml.cs:266 | updating one user without changing its id keeps ids unique |
| Index.IssuedUnique | WebApplication11/Pages/Index.cshtml.cs:302 | issuing a code keeps ids unique |
| Index.Login | WebApplication11/Pages/Index.cshtml.cs:152-193 | a missing user or bad password gives 401 with no change; an unverified user is always refused, and a code is issued only with no expiry or a past one; others are signed in by role |
| Index.Registrant | WebApplication11/Pages/Index.cshtml.cs:214-221 | the new account is unverified and keeps the chosen role, name and address |
| Index.Register | WebApplication11/Pages/Index.cshtml.cs:195-239 | a taken name is refused before the address is checked; then a taken address; otherwise the account is added with its first code |
| Index.RegistrantCanVerify | WebApplication11/Pages/Index.cshtml.cs:214-224 | a new account can be verified with its mailed code within fifteen minutes |
| Index.AppendUnique | WebApplication11/Pages/Index.cshtml.cs:223 | inserting a user under a fresh id keeps ids unique |
| Index.ResendCode | WebApplication11/Pages/Index.cshtml.cs:273-291 | an empty address is refused; an unknown or verified user is refused with no change; otherwise a new code is stored |
| Index.GoogleName | WebApplication11/Pages/Index.cshtml.cs:137 | the given name, or else the part of the address before the first '@' |
| Index.GoogleUser | WebApplication11/Pages/Index.cshtml.cs:135-142 | a verified "Seller" with the placeholder hash and no code |
| Index.FirebaseLogin | WebApplication11/Pages/Index.cshtml.cs:126-150 | an empty address fails; a known address signs its user in unchanged; an unknown one gets a new Seller account and goes to the dashboard |
| Index.GoogleSignInFindsAfter | WebApplication11/Pages/Index.cshtml.cs:131-143 | after an account is created for an address, that address finds it |

## Left out

- Database access: the MongoDB driver, its filters and bulk writes are plain
  operations on sequences. Each handler is one sequential step. Concurrent
  handlers and lost updates are not modelled.
- Ids: a document's ObjectId is an input string. Unique ids are a precondition.
  Order ids, and the receipt lookup by order id, are not modelled.
- Null StoreId: a null StoreId is the empty string. This covers an item's
  StoreId and the StoreId an order (Shop.NewOrder) and a notification take from
  the page's StoreId parameter at checkout.
- Time: `DateTime.UtcNow` is one integer clock per handler. The two clock reads
  of one seeded day, and the "now" and "now + 500 ms" of the chat messages,
  are taken from that one value.
- Random draws: every `Random` draw is an input that ranges over the values the
  call can return.
- Language-model calls: the HTTP calls and the decryption of the API keys are
  inputs describing the call's outcome. The key lists of the key-rotation
  service are not modelled.
- JSON: deserialisation is a function parameter, and the prompt texts are left
  out.
- Search and mock catalogue: the regular-expression search and suggestions
  (Shop lines 49-96) are library regex semantics, so they are left out. The
  mock stores and mock products (Shop lines 99-204) are fixed display data; the
  mock catalogue is an input, and the mock checkout is kept.
- Page and session plumbing: store pages, settings and logout, chat fetching
  and replies, notification fetching and clearing, and the Index page's OnGet
  are left out. The session's JSON encoding of the cart is left out too.
- Notification text: notification messages are kept as what they report. The
  formatting into a sentence, including the `N2` money format, is left out.
- Date labels: the "MMM dd" chart labels are the day numbers they name. The
  serialised chart strings are the sequences they encode.
- Integer width: quantities and counts are unbounded integers, so 32-bit
  `int` overflow is not modelled.
- Decimal rounding: `decimal` is exact reals, so its 28-digit rounding is not
  modelled.
- Culture: `StartsWith` is modelled as ordinal comparison. Culture-sensitive
  comparison is not modelled.
- Reports.ForecastError: a null candidate text throws in the source before the
  fences are stripped. The model folds this into the reply outcome `Thrown`.
  JSON nulls inside the forecast payload's fields are not modelled.
- Reports.SevenDaySales: the map is keyed by day number. Two days with the
  same "MMM dd" label cannot occur within one week.
- Order ties: `SortByDescending(OrderDate)` leaves orders with the same date
  in an order the database chooses. The model lists them in collection order,
  so Reports.ReportPage.Load fixes which of several same-time orders make the
  twenty most recent. Reports.RecentOrdersOfListing states the recent-list
  facts for every newest-first arrangement of the store's orders, so they
  hold for any order of ties.
- Malformed ids in the shop: the shop's handlers catch the FormatException of
  an id that is not an ObjectId, so there such an id is simply not found.
- Dash.Edit: ids are compared as exact text. The driver parses an ObjectId
  case-insensitively, so the source finds a stored id given in upper case;
  the model does not.
- Dash.Swap: ids are compared as exact text, so an upper-case spelling of an
  existing ObjectId resolves no document, where the source's filter finds it.
- Dash.Delete: ids are compared as exact text, so an upper-case spelling of an
  existing ObjectId deletes nothing, where the source deletes that document.
- Dash.MassDelete: ids are compared as exact text, so an upper-case spelling of
  an existing ObjectId in the list deletes nothing, where the source deletes it.
- Shop.AddToCart: item ids are compared as exact text, so an upper-case
  spelling of a stored item's ObjectId does not find the item for the notice.
- Shop.LoadCartData: item ids are compared as exact text, so a cart line with an
  upper-case spelling of a stored item's ObjectId resolves no row.
- Shop.Checkout: item ids are compared as exact text, so a cart line with an
  upper-case spelling of a stored item's ObjectId decrements no stock.
- Dash.Swap: like the source, it does not check that the two items belong to
  the user's store.
- Dash.ReIndex: a missing store throws before anything is written, which the
  model treats as no change.
- Shop.AiChat: a deserialised reply whose Reply field is null is not modelled.
- Sign-in plumbing: BCrypt hashing and verification are function parameters.
  SMTP/MailKit sending is reduced to an optional error message. Cookie sign-in
  and the Google OAuth token exchange are left out.
- Index.Login: BCrypt throws on the placeholder hash of Google accounts. The
  model's password check is a total predicate, so it cannot throw.
- Index.Register: the form validation (ModelState) is a boolean input with the
  joined error text. An exception from the insert itself is not modelled; only
  a mail failure reaches the 500 reply, after the account and its code are
  stored.
- Index.VerifyCode: the form validation (ModelState) is a boolean input.
- Index.FirebaseLogin: signs in an existing account as it is, even an
  unverified one, as the source does. A null username is the empty string.
